/**
 Putting files back together from interleaved chunks while an agent strategy streams
 its response (internal/core/io_tunnel/agent_service.go). The response stream is taken
 to have room for every item.
 */
module BlobReassembly {
  import opened Wrappers
  import opened Base64

  const MAX_FILE_BYTES := 15 * 1024 * 1024
  const MAX_CHUNK_BYTES := 8192

  /** A message of the plugin: a blob chunk, whose fields may be missing or of another type, or anything else. */
  datatype Item<T> =
    | BlobChunk(id: Option<string>, totalLength: Option<Number>, blob: Option<string>, end: Option<bool>)
    | Other(value: T)

  /** A JSON number; None when it does not fit a 64-bit integer. */
  datatype Number = Number(int64: Option<int>)

  datatype Out<T> = Blob(bytes: seq<Byte>) | Passed(value: T)

  datatype Error = ReadFailed | InvalidFileLength | FileTooLarge | CorruptBlob | ChunkTooLarge

  // ------------------------------------------------------------- what the stream should come to

  predicate LengthAccepted(n: Number) {
    n.int64.Some? && 0 <= n.int64.value <= MAX_FILE_BYTES
  }

  /** A chunk with all its fields; the others are skipped. */
  predicate WellFormed<T>(item: Item<T>) {
    item.BlobChunk? && item.id.Some? && item.totalLength.Some? && item.blob.Some? && item.end.Some?
  }

  predicate DataFor<T>(item: Item<T>, id: string) {
    WellFormed(item) && item.id == Some(id) && !item.end.value
  }

  function DataOf<T>(item: Item<T>, id: string): seq<Byte> {
    if DataFor(item, id) && Decode(item.blob.value).Some? then Decode(item.blob.value).value else []
  }

  /** The decoded data seen for one file, in order: nothing but that file's own chunks matters. */
  function Collected<T>(items: seq<Item<T>>, id: string): seq<Byte> {
    if items == [] then []
    else
      Collected(items[..|items| - 1], id) + DataOf(items[|items| - 1], id)
  }

  /** Why an item ends the stream with an error, given the items before it. */
  function Failure<T>(before: seq<Item<T>>, item: Item<T>): Option<Error> {
    if !(item.BlobChunk? && item.id.Some? && item.totalLength.Some?) then None
    else if !LengthAccepted(item.totalLength.value) then Some(InvalidFileLength)
    else if !WellFormed(item) || item.end.value then None
    else if |Collected(before, item.id.value)| > MAX_FILE_BYTES then Some(FileTooLarge)
    else match Decode(item.blob.value)
      case None => Some(CorruptBlob)
      case Some(data) => if |data| > MAX_CHUNK_BYTES then Some(ChunkTooLarge) else None
  }

  /** What one item adds to the response, given the items before it. */
  function Emitted<T>(before: seq<Item<T>>, item: Item<T>): seq<Out<T>> {
    if item.Other? then [Passed(item.value)]
    else if WellFormed(item) && item.end.value then [Blob(Collected(before, item.id.value))]
    else []
  }

  function Response<T>(items: seq<Item<T>>): seq<Out<T>> {
    if items == [] then []
    else Response(items[..|items| - 1]) + Emitted(items[..|items| - 1], items[|items| - 1])
  }

  ghost predicate Clean<T>(items: seq<Item<T>>) {
    forall i :: 0 <= i < |items| ==> Failure(items[..i], items[i]) == None
  }

  lemma OneMore<T>(before: seq<Item<T>>, item: Item<T>)
    ensures forall id :: Collected(before + [item], id) == Collected(before, id) + DataOf(item, id)
    ensures Response(before + [item]) == Response(before) + Emitted(before, item)
    ensures Clean(before + [item]) <==> Clean(before) && Failure(before, item) == None
  {
    var items := before + [item];
    assert items[..|items| - 1] == before;
    assert forall i :: 0 <= i < |before| ==> items[..i] == before[..i];
    if Clean(before) && Failure(before, item) == None {
      forall i | 0 <= i < |items|
        ensures Failure(items[..i], items[i]) == None
      {
        assert i < |before| ==> Failure(before[..i], before[i]) == None;
      }
    }
    if Clean(items) {
      forall i | 0 <= i < |before|
        ensures Failure(before[..i], before[i]) == None
      {
        assert Failure(items[..i], items[i]) == None;
      }
      assert Failure(items[..|before|], items[|before|]) == None;
    }
  }

  /** As long as nothing fails, no buffer grows beyond the file limit plus one chunk. */
  lemma {:induction false} BuffersStayBounded<T>(items: seq<Item<T>>, id: string)
    requires Clean(items)
    ensures |Collected(items, id)| <= MAX_FILE_BYTES + MAX_CHUNK_BYTES
  {
    if items != [] {
      var before, item := items[..|items| - 1], items[|items| - 1];
      assert before + [item] == items;
      OneMore(before, item);
      BuffersStayBounded(before, id);
      assert Failure(before, item) == None;
    }
  }

  // ------------------------------------------------------------- what the response holds

  /** Items that are answered: messages that are no chunks, and chunks that end a file and lack no field. */
  predicate IsAnswered<T>(item: Item<T>) {
    || item.Other?
    || (item.BlobChunk? && item.id.Some? && item.totalLength.Some? && item.blob.Some? && item.end == Some(true))
  }

  /** Where the answered items stand, in order. */
  function AnsweredAt<T>(items: seq<Item<T>>): seq<nat> {
    if items == [] then []
    else AnsweredAt(items[..|items| - 1]) + (if IsAnswered(items[|items| - 1]) then [|items| - 1] else [])
  }

  ghost predicate InOrder<T>(at: seq<nat>, items: seq<Item<T>>) {
    && (forall k :: 0 <= k < |at| ==> at[k] < |items| && IsAnswered(items[at[k]]))
    && forall j, k :: 0 <= j < k < |at| ==> at[j] < at[k]
  }

  lemma {:induction false} AnsweredInOrder<T>(items: seq<Item<T>>)
    ensures InOrder(AnsweredAt(items), items)
  {
    if items != [] {
      AnsweredInOrder(items[..|items| - 1]);
      OneMoreInOrder(AnsweredAt(items[..|items| - 1]), items);
    }
  }

  lemma OneMoreInOrder<T>(at: seq<nat>, items: seq<Item<T>>)
    requires items != [] && InOrder(at, items[..|items| - 1])
    ensures InOrder(at, items)
    ensures IsAnswered(items[|items| - 1]) ==> InOrder(at + [|items| - 1], items)
  {
    hide IsAnswered;
    assert forall k :: 0 <= k < |at| ==> items[at[k]] == items[..|items| - 1][at[k]];
  }

  lemma {:induction false} AllAnswered<T>(items: seq<Item<T>>, i: nat)
    requires i < |items| && IsAnswered(items[i])
    ensures i in AnsweredAt(items)
  {
    if i < |items| - 1 {
      AllAnswered(items[..|items| - 1], i);
    }
  }

  /** The answer to one item: a message itself, or the file that a chunk ends. */
  ghost predicate Answers<T>(out: Out<T>, items: seq<Item<T>>, i: nat)
    requires i < |items|
  {
    match items[i]
    case Other(value) => out == Passed(value)
    case BlobChunk(id, _, _, _) => id.Some? && out == Blob(Collected(items[..i], id.value))
  }

  /** These answers are to the items at these places, one each. */
  ghost predicate AnswersTo<T>(out: seq<Out<T>>, items: seq<Item<T>>, at: seq<nat>) {
    |out| == |at| && forall k :: 0 <= k < |at| ==> at[k] < |items| && Answers(out[k], items, at[k])
  }

  lemma StillAnswers<T>(out: seq<Out<T>>, items: seq<Item<T>>, at: seq<nat>)
    requires items != [] && AnswersTo(out, items[..|items| - 1], at)
    ensures AnswersTo(out, items, at)
  {
    hide Collected;
    var before := items[..|items| - 1];
    forall k | 0 <= k < |at| ensures at[k] < |items| && Answers(out[k], items, at[k]) {
      assert Answers(out[k], before, at[k]) && items[at[k]] == before[at[k]] && items[..at[k]] == before[..at[k]];
    }
  }

  /**
   The response answers exactly the messages that are no chunks and the chunks that end a file, one each and in order:
   a message with itself, and an end with what was collected for its file before it.
   */
  lemma {:induction false} AnsweredOneByOne<T>(items: seq<Item<T>>)
    ensures AnswersTo(Response(items), items, AnsweredAt(items))
  {
    if items != [] {
      hide Collected;
      var before := items[..|items| - 1];
      AnsweredOneByOne(before);
      StillAnswers(Response(before), items, AnsweredAt(before));
    }
  }

  function PassedOf<T>(out: seq<Out<T>>): seq<T> {
    if out == [] then []
    else PassedOf(out[..|out| - 1]) + (if out[|out| - 1].Passed? then [out[|out| - 1].value] else [])
  }

  function OthersOf<T>(items: seq<Item<T>>): seq<T> {
    if items == [] then []
    else OthersOf(items[..|items| - 1]) + (if items[|items| - 1].Other? then [items[|items| - 1].value] else [])
  }

  lemma PassedOne<T>(out: seq<Out<T>>, x: Out<T>)
    ensures PassedOf(out + [x]) == PassedOf(out) + (if x.Passed? then [x.value] else [])
  {
    assert (out + [x])[..|out|] == out;
  }

  /** Messages that are no chunks pass through, all of them and in order. */
  lemma {:induction false} OthersPass<T>(items: seq<Item<T>>)
    ensures PassedOf(Response(items)) == OthersOf(items)
  {
    if items != [] {
      var before, last := items[..|items| - 1], items[|items| - 1];
      OthersPass(before);
      match last
      case Other(value) => PassedOne(Response(before), Passed(value));
      case BlobChunk(id, _, _, _) =>
        if Emitted(before, last) != [] {
          PassedOne(Response(before), Blob(Collected(before, id.value)));
        } else {
          assert Response(items) == Response(before) + [] == Response(before);
        }
    }
  }

  /**
   A stream goes through exactly when every chunk with an identifier and a length declares at most 15 MiB, and every one
   that carries data finds at most 15 MiB collected and decodes to at most 8192 bytes.
   */
  lemma CleanExactlyWhen<T>(items: seq<Item<T>>)
    ensures Clean(items) <==> forall i :: 0 <= i < |items| ==> Harmless(items, i)
  {
    forall i | 0 <= i < |items| ensures Failure(items[..i], items[i]) == None <==> Harmless(items, i) {
      HarmlessExactlyWhen(items, i);
    }
  }

  lemma HarmlessExactlyWhen<T>(items: seq<Item<T>>, i: nat)
    requires i < |items|
    ensures Failure(items[..i], items[i]) == None <==> Harmless(items, i)
  {
    hide Collected, Decode;
  }

  predicate Harmless<T>(items: seq<Item<T>>, i: nat)
    requires i < |items|
  {
    var item := items[i];
    item.BlobChunk? && item.id.Some? && item.totalLength.Some? ==>
      && item.totalLength.value.int64.Some? && 0 <= item.totalLength.value.int64.value <= 15728640
      && (item.blob.Some? && item.end == Some(false) ==>
            && |Collected(items[..i], item.id.value)| <= 15728640
            && Decode(item.blob.value).Some? && |Decode(item.blob.value).value| <= 8192)
  }

  /** What is wrong with the item a stream fails at. */
  lemma FailsFor<T>(before: seq<Item<T>>, item: Item<T>)
    requires Failure(before, item).Some?
    ensures item.BlobChunk? && item.id.Some? && item.totalLength.Some?
    ensures var e, length := Failure(before, item).value, item.totalLength.value.int64;
            && (e == InvalidFileLength <==> length == None || length.value < 0 || length.value > 15728640)
            && (e == FileTooLarge ==> |Collected(before, item.id.value)| > 15728640)
            && (e == CorruptBlob ==> item.blob.Some? && Decode(item.blob.value) == None)
            && (e == ChunkTooLarge ==>
                  item.blob.Some? && Decode(item.blob.value).Some? && |Decode(item.blob.value).value| > 8192)
            && e in {InvalidFileLength, FileTooLarge, CorruptBlob, ChunkTooLarge}
  {
  }

  // ------------------------------------------------------------- the loop

  /**
   The stream is answered up to its first failing item: each end chunk emits exactly the data collected for
   its file so far, and other items pass through in order.
   */
  method Reassemble<T>(items: seq<Item<T>>) returns (response: seq<Out<T>>, read: nat, error: Option<Error>)
    ensures read <= |items| && Clean(items[..read]) && response == Response(items[..read])
    ensures error == if read == |items| then None else Failure(items[..read], items[read])
    ensures read < |items| ==> error.Some?
    ensures PassedOf(response) == OthersOf(items[..read])
  {
    hide Collected, Response, Decode, Clean, PassedOf, OthersOf;
    var files: map<string, seq<Byte>> := map[];
    response := [];
    read := 0;
    EmptyStream<T>(items);
    while read < |items|
      invariant read <= |items| && Clean(items[..read]) && response == Response(items[..read])
      invariant forall id :: Collected(items[..read], id) == if id in files then files[id] else []
    {
      var item := items[read];
      ghost var before := items[..read];
      assert items[..read + 1] == before + [item];
      OneMore(before, item);
      OthersPass(before);
      if item.BlobChunk? {
        if item.id.None? || item.totalLength.None? {
          read := read + 1;
          continue;
        }
        if !LengthAccepted(item.totalLength.value) {
          return response, read, Some(InvalidFileLength);
        }
        if item.blob.None? || item.end.None? {
          read := read + 1;
          continue;
        }
        var id := item.id.value;
        if id !in files {
          files := files[id := []];
        }
        if item.end.value {
          response := response + [Blob(files[id])];
        } else {
          if |files[id]| > MAX_FILE_BYTES {
            return response, read, Some(FileTooLarge);
          }
          var decoded := Decode(item.blob.value);
          if decoded.None? {
            return response, read, Some(CorruptBlob);
          }
          if |decoded.value| > MAX_CHUNK_BYTES {
            return response, read, Some(ChunkTooLarge);
          }
          files := files[id := files[id] + decoded.value];
        }
      } else {
        response := response + [Passed(item.value)];
      }
      read := read + 1;
    }
    assert items[..|items|] == items;
    OthersPass(items);
    error := None;
  }

  lemma EmptyStream<T>(items: seq<Item<T>>)
    ensures Clean(items[..0]) && Response(items[..0]) == []
    ensures forall id :: Collected(items[..0], id) == []
  {
  }

  // ------------------------------------------------------------- files survive the transfer

  function ChunkOf<T>(id: string, totalLength: Number, piece: seq<Byte>): Item<T> {
    BlobChunk(Some(id), Some(totalLength), Some(Encode(piece)), Some(false))
  }

  /** The chunks a sender makes of a file that was cut into pieces. */
  function ChunksOf<T>(id: string, totalLength: Number, pieces: seq<seq<Byte>>): seq<Item<T>> {
    seq(|pieces|, i requires 0 <= i < |pieces| =>
      ChunkOf(id, totalLength, pieces[i]))
  }

  function Concat(pieces: seq<seq<Byte>>): seq<Byte> {
    if pieces == [] then [] else Concat(pieces[..|pieces| - 1]) + pieces[|pieces| - 1]
  }

  /** The chunks of one file among everything else, in their order. */
  function ChunksFor<T>(items: seq<Item<T>>, id: string): seq<Item<T>> {
    if items == [] then []
    else
      var last := items[|items| - 1];
      ChunksFor(items[..|items| - 1], id) + (if DataFor(last, id) then [last] else [])
  }

  /** Other files and messages in between make no difference to a file. */
  lemma {:induction false} InterleavingIrrelevant<T>(items: seq<Item<T>>, id: string)
    ensures Collected(items, id) == Collected(ChunksFor(items, id), id)
  {
    if items != [] {
      var before, last := items[..|items| - 1], items[|items| - 1];
      InterleavingIrrelevant(before, id);
      if DataFor(last, id) {
        OneMore(ChunksFor(before, id), last);
      } else {
        assert Collected(items, id) == Collected(before, id) && ChunksFor(items, id) == ChunksFor(before, id);
      }
    }
  }

  lemma ChunkHoldsPiece<T>(id: string, totalLength: Number, piece: seq<Byte>)
    ensures DataOf(ChunkOf<T>(id, totalLength, piece), id) == piece
  {
    RoundTrip(piece);
    hide Decode, Encode;
  }

  lemma ChunksMore<T>(id: string, totalLength: Number, pieces: seq<seq<Byte>>)
    requires pieces != []
    ensures var before, last := pieces[..|pieces| - 1], pieces[|pieces| - 1];
            ChunksOf<T>(id, totalLength, pieces) == ChunksOf<T>(id, totalLength, before) + [ChunkOf<T>(id, totalLength, last)]
  {
    hide Encode;
  }

  lemma {:induction false} CollectedChunks<T>(id: string, totalLength: Number, pieces: seq<seq<Byte>>)
    ensures Collected(ChunksOf<T>(id, totalLength, pieces), id) == Concat(pieces)
  {
    if pieces != [] {
      var before, last := pieces[..|pieces| - 1], pieces[|pieces| - 1];
      CollectedChunks<T>(id, totalLength, before);
      ChunksMore<T>(id, totalLength, pieces);
      ChunkHoldsPiece<T>(id, totalLength, last);
      hide Collected, ChunksOf, ChunkOf, DataOf, Response, Clean;
      OneMore(ChunksOf<T>(id, totalLength, before), ChunkOf<T>(id, totalLength, last));
    }
  }

  /** A file sent in base64 pieces comes out whole at its end chunk, whatever else is interleaved. */
  lemma FileArrivesWhole<T>(
      items: seq<Item<T>>, end: Item<T>, id: string, totalLength: Number, pieces: seq<seq<Byte>>)
    requires ChunksFor(items, id) == ChunksOf(id, totalLength, pieces)
    requires WellFormed(end) && end.id == Some(id) && end.end.value
    ensures Response(items + [end]) == Response(items) + [Blob(Concat(pieces))]
  {
    InterleavingIrrelevant(items, id);
    CollectedChunks<T>(id, totalLength, pieces);
    OneMore(items, end);
  }
}
