/** Padded standard base64 (section 4 of RFC 4648), as Go's base64.StdEncoding decodes it. */
module Base64 {
  import opened Wrappers

  type Sextet = x: int | 0 <= x < 64

  function SextetOf(c: char): Option<Sextet> {
    if 'A' <= c <= 'Z' then Some(c as int - 'A' as int)
    else if 'a' <= c <= 'z' then Some(c as int - 'a' as int + 26)
    else if '0' <= c <= '9' then Some(c as int - '0' as int + 52)
    else if c == '+' then Some(62)
    else if c == '/' then Some(63)
    else None
  }

  function CharOf(x: Sextet): (c: char)
    ensures SextetOf(c) == Some(x) && c != '=' && c != '\r' && c != '\n'
  {
    if x < 26 then 'A' + x as char
    else if x < 52 then 'a' + (x - 26) as char
    else if x < 62 then '0' + (x - 52) as char
    else if x == 62 then '+'
    else '/'
  }

  /** Line breaks are skipped wherever they stand. */
  function WithoutBreaks(s: string): (r: string)
    ensures |r| <= |s|
  {
    if s == "" then ""
    else if s[0] == '\r' || s[0] == '\n' then WithoutBreaks(s[1..])
    else [s[0]] + WithoutBreaks(s[1..])
  }

  /** One quantum of four characters; only the last one may be padded. Unused low bits are ignored. */
  function DecodeQuantum(q: string, last: bool): Option<seq<Byte>>
    requires |q| == 4
  {
    var a, b, c, d := SextetOf(q[0]), SextetOf(q[1]), SextetOf(q[2]), SextetOf(q[3]);
    if a.None? || b.None? then None
    else if last && q[2] == '=' && q[3] == '=' then Some([a.value * 4 + b.value / 16])
    else if c.None? then None
    else if last && q[3] == '=' then Some([a.value * 4 + b.value / 16, b.value % 16 * 16 + c.value / 4])
    else if d.None? then None
    else Some([a.value * 4 + b.value / 16, b.value % 16 * 16 + c.value / 4, c.value % 4 * 64 + d.value])
  }

  function DecodeQuanta(s: string): Option<seq<Byte>> {
    if s == "" then Some([])
    else if |s| < 4 then None
    else
      var head := DecodeQuantum(s[..4], |s| == 4);
      if head.None? then None
      else
        var tail := DecodeQuanta(s[4..]);
        if tail.None? then None else Some(head.value + tail.value)
  }

  function Decode(s: string): Option<seq<Byte>> {
    DecodeQuanta(WithoutBreaks(s))
  }

  function EncodeGroup(g: seq<Byte>): (q: string)
    requires 1 <= |g| <= 3
    ensures |q| == 4
  {
    if |g| == 1 then [CharOf(g[0] / 4), CharOf(g[0] % 4 * 16), '=', '=']
    else if |g| == 2 then
      [CharOf(g[0] / 4), CharOf(g[0] % 4 * 16 + g[1] / 16), CharOf(g[1] % 16 * 4), '=']
    else
      [CharOf(g[0] / 4), CharOf(g[0] % 4 * 16 + g[1] / 16), CharOf(g[1] % 16 * 4 + g[2] / 64), CharOf(g[2] % 64)]
  }

  function Encode(data: seq<Byte>): string {
    if data == [] then ""
    else if |data| <= 3 then EncodeGroup(data)
    else EncodeGroup(data[..3]) + Encode(data[3..])
  }

  /** Decoding never yields more than three bytes for four characters. */
  lemma {:induction false} DecodedLength(s: string)
    ensures DecodeQuanta(s).Some? ==> 4 * |DecodeQuanta(s).value| <= 3 * |s|
  {
    if |s| >= 4 {
      DecodedLength(s[4..]);
    }
  }

  lemma DecodeShrinks(s: string)
    ensures Decode(s).Some? ==> 4 * |Decode(s).value| <= 3 * |s|
  {
    DecodedLength(WithoutBreaks(s));
  }

  lemma GroupRoundTrip(g: seq<Byte>)
    requires 1 <= |g| <= 3
    ensures DecodeQuantum(EncodeGroup(g), true) == Some(g)
    ensures |g| == 3 ==> DecodeQuantum(EncodeGroup(g), false) == Some(g)
    ensures forall c :: c in EncodeGroup(g) ==> c != '\r' && c != '\n'
  {
    if |g| == 1 {
      assert g == [g[0]];
    } else if |g| == 2 {
      assert g == [g[0], g[1]];
    } else {
      assert g == [g[0], g[1], g[2]];
    }
  }

  lemma {:induction false} NoBreaksToSkip(s: string)
    requires forall c :: c in s ==> c != '\r' && c != '\n'
    ensures WithoutBreaks(s) == s
  {
    if s != "" {
      assert s[0] in s && forall c :: c in s[1..] ==> c in s;
      NoBreaksToSkip(s[1..]);
    }
  }

  lemma {:induction false} QuantaRoundTrip(data: seq<Byte>)
    ensures DecodeQuanta(Encode(data)) == Some(data)
    ensures forall c :: c in Encode(data) ==> c != '\r' && c != '\n'
  {
    if data == [] {
    } else if |data| <= 3 {
      GroupRoundTrip(data);
      var q := EncodeGroup(data);
      assert q[..4] == q && q[4..] == "";
      assert DecodeQuanta(q[4..]) == Some([]) && data + [] == data;
    } else {
      GroupRoundTrip(data[..3]);
      QuantaRoundTrip(data[3..]);
      var q, rest := EncodeGroup(data[..3]), Encode(data[3..]);
      assert (q + rest)[..4] == q && (q + rest)[4..] == rest;
      assert data[..3] + data[3..] == data;
    }
  }

  lemma RoundTrip(data: seq<Byte>)
    ensures Decode(Encode(data)) == Some(data)
  {
    QuantaRoundTrip(data);
    NoBreaksToSkip(Encode(data));
  }
}
