/**
 The newline framer of the debugging connection
 (internal/core/debugging_runtime/codec.go, OnTraffic in hooks.go).
 */
module LineFramer {
  import opened Splitting
  import opened Wrappers

  const NEWLINE: Byte := 10

  /** The byte stream a sender produces for these lines. */
  function Framed(lines: seq<seq<Byte>>): seq<Byte> {
    if lines == [] then [] else lines[0] + [NEWLINE] + Framed(lines[1..])
  }

  ghost predicate Unbroken(lines: seq<seq<Byte>>) {
    forall i :: 0 <= i < |lines| ==> NEWLINE !in lines[i]
  }

  function Concat(chunks: seq<seq<Byte>>): seq<Byte> {
    if chunks == [] then [] else Concat(chunks[..|chunks| - 1]) + chunks[|chunks| - 1]
  }

  /** The non-empty lines, which are the only ones delivered. */
  function NonEmpty(lines: seq<seq<Byte>>): seq<seq<Byte>> {
    if lines == [] then []
    else NonEmpty(lines[..|lines| - 1]) + (if lines[|lines| - 1] == [] then [] else [lines[|lines| - 1]])
  }

  // ------------------------------------------------------------- a stream has one reading

  lemma {:induction false} FramedAppend(a: seq<seq<Byte>>, b: seq<seq<Byte>>)
    ensures Framed(a + b) == Framed(a) + Framed(b)
  {
    if a == [] {
      assert a + b == b;
    } else {
      FramedAppend(a[1..], b);
      assert (a + b)[1..] == a[1..] + b;
    }
  }

  lemma {:induction false} SplitFramed(lines: seq<seq<Byte>>, rest: seq<Byte>)
    requires Unbroken(lines) && NEWLINE !in rest
    ensures SplitOn(Framed(lines) + rest, NEWLINE) == lines + [rest]
  {
    if lines == [] {
      assert Framed(lines) + rest == rest;
      SplitFree(rest, NEWLINE);
    } else {
      SplitFramed(lines[1..], rest);
      SplitAtSeparator(lines[0], NEWLINE, Framed(lines[1..]) + rest);
      assert Framed(lines) + rest == lines[0] + [NEWLINE] + (Framed(lines[1..]) + rest);
      assert lines + [rest] == [lines[0]] + (lines[1..] + [rest]);
    }
  }

  /** A stream determines its complete lines and its unterminated rest. */
  lemma OneReading(a: seq<seq<Byte>>, ra: seq<Byte>, b: seq<seq<Byte>>, rb: seq<Byte>)
    requires Unbroken(a) && NEWLINE !in ra && Unbroken(b) && NEWLINE !in rb
    requires Framed(a) + ra == Framed(b) + rb
    ensures a == b && ra == rb
  {
    SplitFramed(a, ra);
    SplitFramed(b, rb);
    assert a == (a + [ra])[..|a|] && b == (b + [rb])[..|b|];
    assert ra == (a + [ra])[|a|] && rb == (b + [rb])[|b|];
  }

  lemma {:induction false} JoinIsFramed(pieces: seq<seq<Byte>>)
    requires |pieces| > 0
    ensures JoinWith(pieces, NEWLINE) == Framed(pieces[..|pieces| - 1]) + pieces[|pieces| - 1]
  {
    if |pieces| > 1 {
      JoinIsFramed(pieces[1..]);
      assert pieces[..|pieces| - 1][1..] == pieces[1..][..|pieces| - 2];
    }
  }

  lemma {:induction false} NonEmptyAppend(a: seq<seq<Byte>>, b: seq<seq<Byte>>)
    ensures NonEmpty(a + b) == NonEmpty(a) + NonEmpty(b)
    decreases |b|
  {
    if b == [] {
      assert a + b == a;
    } else {
      assert (a + b)[..|a + b| - 1] == a + b[..|b| - 1];
      NonEmptyAppend(a, b[..|b| - 1]);
    }
  }

  /** Exactly the empty lines are dropped. */
  lemma {:induction false} DropsExactlyTheEmpty(lines: seq<seq<Byte>>)
    ensures [] !in NonEmpty(lines)
    ensures forall line :: line != [] ==> multiset(NonEmpty(lines))[line] == multiset(lines)[line]
  {
    if lines != [] {
      var before, last := lines[..|lines| - 1], lines[|lines| - 1];
      DropsExactlyTheEmpty(before);
      assert lines == before + [last];
    }
  }

  lemma {:induction false} NonEmptyKeeps(lines: seq<seq<Byte>>)
    requires forall i :: 0 <= i < |lines| ==> lines[i] != []
    ensures NonEmpty(lines) == lines
  {
    if lines != [] {
      NonEmptyKeeps(lines[..|lines| - 1]);
    }
  }

  // ------------------------------------------------------------- chunks

  /** The lines handed out for chunks that arrive one after the other, and what is left in the buffer. */
  ghost function Reading(chunks: seq<seq<Byte>>): (seq<seq<Byte>>, seq<Byte>) {
    if chunks == [] then ([], [])
    else
      var (lines, buf) := Reading(chunks[..|chunks| - 1]);
      var pieces := SplitOn(buf + chunks[|chunks| - 1], NEWLINE);
      (lines + pieces[..|pieces| - 1], pieces[|pieces| - 1])
  }

  lemma PiecesAreFramed(data: seq<Byte>)
    ensures var pieces := SplitOn(data, NEWLINE);
            var lines, rest := pieces[..|pieces| - 1], pieces[|pieces| - 1];
            Unbroken(lines) && NEWLINE !in rest && Framed(lines) + rest == data
  {
    JoinAfterSplit(data, NEWLINE);
    PiecesAreFree(data, NEWLINE);
    JoinIsFramed(SplitOn(data, NEWLINE));
    assert forall i :: 0 <= i < |SplitOn(data, NEWLINE)| ==> SplitOn(data, NEWLINE)[i] in SplitOn(data, NEWLINE);
  }

  /** What is handed out and what is left over are a reading of all the chunks. */
  lemma {:induction false} ReadingIsOfTheStream(chunks: seq<seq<Byte>>)
    ensures Unbroken(Reading(chunks).0) && NEWLINE !in Reading(chunks).1
    ensures Framed(Reading(chunks).0) + Reading(chunks).1 == Concat(chunks)
  {
    if chunks != [] {
      var (lines, buf) := Reading(chunks[..|chunks| - 1]);
      var last := chunks[|chunks| - 1];
      ReadingIsOfTheStream(chunks[..|chunks| - 1]);
      PiecesAreFramed(buf + last);
      var pieces := SplitOn(buf + last, NEWLINE);
      var more, rest := pieces[..|pieces| - 1], pieces[|pieces| - 1];
      FramedAppend(lines, more);
      assert Framed(lines + more) + rest == Framed(lines) + (Framed(more) + rest) == Framed(lines) + (buf + last);
    }
  }

  /** Framing is independent of chunking: chunks that make up the same stream are read alike. */
  lemma ChunkingIrrelevant(a: seq<seq<Byte>>, b: seq<seq<Byte>>)
    requires Concat(a) == Concat(b)
    ensures Reading(a) == Reading(b)
  {
    ReadingIsOfTheStream(a);
    ReadingIsOfTheStream(b);
    OneReading(Reading(a).0, Reading(a).1, Reading(b).0, Reading(b).1);
  }

  // ------------------------------------------------------------- the codec

  class Codec {
    var buf: seq<Byte>

    ghost predicate Valid()
      reads this
    {
      NEWLINE !in buf
    }

    constructor ()
      ensures Valid() && buf == []
    {
      buf := [];
    }

    /** Takes a chunk and hands out the lines it completes; what is left over stays in the buffer. */
    method GetLines(data: seq<Byte>) returns (lines: seq<seq<Byte>>)
      requires Valid()
      modifies this
      ensures Valid() && Unbroken(lines)
      ensures Framed(lines) + buf == old(buf) + data
    {
      buf := buf + data;
      var all := buf;
      buf := [];
      lines := SplitOn(all, NEWLINE);
      PiecesAreFramed(all);
      var last := lines[|lines| - 1];
      if |last| != 0 {
        buf := buf + last;
        lines := lines[..|lines| - 1];
      } else if |lines| > 0 {
        lines := lines[..|lines| - 1];
      }
    }
  }

  /** The delivery loop of one traffic event: empty lines are dropped, the others go on in order. */
  method Deliver(messages: seq<seq<Byte>>) returns (delivered: seq<seq<Byte>>)
    ensures delivered == NonEmpty(messages)
  {
    delivered := [];
    for j := 0 to |messages|
      invariant delivered == NonEmpty(messages[..j])
    {
      assert messages[..j + 1][..j] == messages[..j];
      if |messages[j]| == 0 {
        continue;
      }
      delivered := delivered + [messages[j]];
    }
    assert messages[..|messages|] == messages;
  }

  lemma ConcatOneMore(chunks: seq<seq<Byte>>, i: nat)
    requires i < |chunks|
    ensures Concat(chunks[..i + 1]) == Concat(chunks[..i]) + chunks[i]
  {
    assert chunks[..i + 1][..i] == chunks[..i];
  }

  lemma EmptyReading()
    ensures Framed([]) == [] && NonEmpty([]) == []
  {
  }

  /** What every way of receiving a stream comes to. */
  lemma ReceivedExactly(stream: seq<Byte>, lines: seq<seq<Byte>>, rest: seq<Byte>, messages: seq<seq<Byte>>)
    requires Unbroken(lines) && NEWLINE !in rest && Framed(lines) + rest == stream
    requires Unbroken(messages) && [] !in messages && Framed(messages) == stream
    ensures NonEmpty(lines) == messages && rest == []
  {
    assert Framed(messages) + [] == stream;
    OneReading(lines, rest, messages, []);
    assert forall i :: 0 <= i < |messages| ==> messages[i] in messages;
    NonEmptyKeeps(messages);
  }

  /**
   Framing is independent of chunking: however a stream is cut into chunks, the lines handed out are the
   complete lines of the stream, the buffer is its rest, and exactly the non-empty lines are delivered.
   */
  method Receive(codec: Codec, chunks: seq<seq<Byte>>)
    returns (lines: seq<seq<Byte>>, delivered: seq<seq<Byte>>)
    requires codec.Valid() && codec.buf == []
    modifies codec
    ensures codec.Valid() && Unbroken(lines)
    ensures Framed(lines) + codec.buf == Concat(chunks) && (lines, codec.buf) == Reading(chunks)
    ensures delivered == NonEmpty(lines)
    ensures forall messages ::
      Unbroken(messages) && [] !in messages && Framed(messages) == Concat(chunks) ==>
      delivered == messages && codec.buf == []
  {
    lines, delivered := [], [];
    hide Reading, NonEmpty, Framed;
    EmptyReading();
    for i := 0 to |chunks|
      invariant codec.Valid() && Unbroken(lines)
      invariant Framed(lines) + codec.buf == Concat(chunks[..i])
      invariant delivered == NonEmpty(lines)
    {
      ConcatOneMore(chunks, i);
      ghost var before := codec.buf;
      var messages := codec.GetLines(chunks[i]);
      FramedAppend(lines, messages);
      assert Framed(lines + messages) + codec.buf == Framed(lines) + (before + chunks[i]);
      NonEmptyAppend(lines, messages);
      var more := Deliver(messages);
      lines := lines + messages;
      delivered := delivered + more;
    }
    assert chunks[..|chunks|] == chunks;
    ReadingIsOfTheStream(chunks);
    OneReading(lines, codec.buf, Reading(chunks).0, Reading(chunks).1);
    forall messages | Unbroken(messages) && [] !in messages && Framed(messages) == Concat(chunks)
      ensures delivered == messages && codec.buf == []
    {
      ReceivedExactly(Concat(chunks), lines, codec.buf, messages);
    }
  }
}
