/**
 How a serverless text request that is too large for one HTTP body is cut into
 serial batches (internal/core/io_tunnel/model_serverless_batch.go).

 The JSON encoder of a single text is a parameter (marshal), because the split only
 depends on how texts are assembled into a JSON array: the results hold for every encoder.
 */
module TextBatching {
  import opened Wrappers

  /** Everything a marshalled session message holds around its "texts" array. */
  datatype Session = Session(prefix: string, suffix: string)

  datatype Batch<T> = Batch(
    request: seq<T>, payloadBytes: nat, maxRequestBytes: int, itemOffset: nat, itemCount: nat)

  datatype SplitError =
    | PayloadTooLarge(payloadBytes: nat, maxRequestBytes: int, itemIndex: Option<nat>)
    | EstimateMismatch(payloadBytes: nat, maxRequestBytes: int)

  // ------------------------------------------------------------- message size

  function Joined(items: seq<string>): string {
    if |items| == 0 then ""
    else if |items| == 1 then items[0]
    else items[0] + "," + Joined(items[1..])
  }

  /** The marshalled message: a JSON array (section 5 of RFC 8259) inside its envelope. */
  function Message(session: Session, items: seq<string>): string {
    session.prefix + "[" + Joined(items) + "]" + session.suffix
  }

  function Marshalled<T>(marshal: T -> string, texts: seq<T>): seq<string> {
    seq(|texts|, i requires 0 <= i < |texts| => marshal(texts[i]))
  }

  function PayloadBytes<T>(session: Session, marshal: T -> string, texts: seq<T>): nat {
    |Message(session, Marshalled(marshal, texts))|
  }

  lemma {:induction false} JoinedAppend(items: seq<string>, x: string)
    ensures Joined(items + [x]) == if items == [] then x else Joined(items) + "," + x
    decreases |items|
  {
    if |items| == 0 {
    } else if |items| == 1 {
      assert (items + [x])[1..] == [x];
    } else {
      JoinedAppend(items[1..], x);
      assert (items + [x])[1..] == items[1..] + [x];
      assert items[0] + "," + (Joined(items[1..]) + "," + x) == Joined(items) + "," + x;
    }
  }

  /** The running estimate is exact: one more text adds its encoding and, unless it is first, a comma. */
  lemma PayloadGrows<T>(session: Session, marshal: T -> string, texts: seq<T>, text: T)
    ensures PayloadBytes(session, marshal, texts + [text])
         == PayloadBytes(session, marshal, texts) + |marshal(text)| + (if texts == [] then 0 else 1)
  {
    assert Marshalled(marshal, texts + [text]) == Marshalled(marshal, texts) + [marshal(text)];
    JoinedAppend(Marshalled(marshal, texts), marshal(text));
  }

  lemma PayloadGrowsLeft<T>(session: Session, marshal: T -> string, text: T, texts: seq<T>)
    ensures PayloadBytes(session, marshal, texts) <= PayloadBytes(session, marshal, [text] + texts)
  {
    assert Marshalled(marshal, [text] + texts) == [marshal(text)] + Marshalled(marshal, texts);
    assert ([marshal(text)] + Marshalled(marshal, texts))[1..] == Marshalled(marshal, texts);
  }

  /** Cutting texts off either end never makes a request larger. */
  lemma {:induction false} PayloadMonotone<T>(
      session: Session, marshal: T -> string, texts: seq<T>, outer: (nat, nat), inner: (nat, nat))
    requires outer.0 <= inner.0 <= inner.1 <= outer.1 <= |texts|
    ensures PayloadBytes(session, marshal, texts[inner.0..inner.1])
         <= PayloadBytes(session, marshal, texts[outer.0..outer.1])
    decreases outer.1 - outer.0
  {
    if outer.0 < inner.0 {
      PayloadMonotone(session, marshal, texts, (outer.0 + 1, outer.1), inner);
      PayloadGrowsLeft(session, marshal, texts[outer.0], texts[outer.0 + 1..outer.1]);
      assert [texts[outer.0]] + texts[outer.0 + 1..outer.1] == texts[outer.0..outer.1];
    } else if inner.1 < outer.1 {
      PayloadMonotone(session, marshal, texts, (outer.0, outer.1 - 1), inner);
      PayloadGrows(session, marshal, texts[outer.0..outer.1 - 1], texts[outer.1 - 1]);
      assert texts[outer.0..outer.1 - 1] + [texts[outer.1 - 1]] == texts[outer.0..outer.1];
    }
  }

  // ------------------------------------------------------------- plans

  ghost predicate Fits<T>(session: Session, marshal: T -> string, texts: seq<T>, limit: int) {
    PayloadBytes(session, marshal, texts) <= limit
  }

  ghost predicate ItemFits<T>(session: Session, marshal: T -> string, texts: seq<T>, limit: int, i: nat)
    requires i < |texts|
  {
    Fits(session, marshal, texts[i..i + 1], limit)
  }

  function EndOf<T>(b: Batch<T>): nat {
    b.itemOffset + b.itemCount
  }

  /** A batch holds a non-empty slice of the list, and its true size is within the limit. */
  ghost predicate WellCut<T>(session: Session, marshal: T -> string, texts: seq<T>, limit: int, b: Batch<T>) {
    && b.itemCount > 0
    && EndOf(b) <= |texts|
    && b.request == texts[b.itemOffset..EndOf(b)]
    && b.payloadBytes == PayloadBytes(session, marshal, b.request) <= limit
    && b.maxRequestBytes == limit
  }

  /** A batch could not have taken the text that follows it. */
  ghost predicate Full<T>(session: Session, marshal: T -> string, texts: seq<T>, limit: int, b: Batch<T>) {
    EndOf(b) < |texts| ==> !Fits(session, marshal, texts[b.itemOffset..EndOf(b) + 1], limit)
  }

  /** Batches follow each other from the first text up to (not including) end. */
  ghost predicate Chained<T>(plan: seq<Batch<T>>, end: nat) {
    && (if plan == [] then end == 0 else plan[0].itemOffset == 0 && EndOf(plan[|plan| - 1]) == end)
    && forall k :: 0 < k < |plan| ==> plan[k].itemOffset == EndOf(plan[k - 1])
  }

  ghost predicate TilesUpTo<T>(
      session: Session, marshal: T -> string, texts: seq<T>, limit: int, plan: seq<Batch<T>>, end: nat)
  {
    && Chained(plan, end)
    && forall k :: 0 <= k < |plan| ==> WellCut(session, marshal, texts, limit, plan[k])
  }

  ghost predicate Maximal<T>(session: Session, marshal: T -> string, texts: seq<T>, limit: int, plan: seq<Batch<T>>) {
    forall k :: 0 <= k < |plan| ==> Full(session, marshal, texts, limit, plan[k])
  }

  /** Any way of cutting the list into contiguous, non-empty, fitting requests, given by its cut positions. */
  ghost predicate FittingSplit<T>(
      session: Session, marshal: T -> string, texts: seq<T>, limit: int, cuts: seq<nat>)
  {
    && |cuts| > 0 && cuts[0] == 0 && cuts[|cuts| - 1] == |texts|
    && (forall k :: 0 <= k < |cuts| - 1 ==> cuts[k] < cuts[k + 1])
    && (forall k :: 0 <= k < |cuts| ==> cuts[k] <= |texts|)
    && (forall k :: 0 <= k < |cuts| - 1 ==> Fits(session, marshal, texts[cuts[k]..cuts[k + 1]], limit))
  }

  /** After k batches the greedy plan is at least as far along as any other split. */
  lemma {:induction false} GreedyStaysAhead<T>(
      session: Session, marshal: T -> string, texts: seq<T>, limit: int,
      plan: seq<Batch<T>>, cuts: seq<nat>, k: nat)
    requires TilesUpTo(session, marshal, texts, limit, plan, |texts|)
    requires Maximal(session, marshal, texts, limit, plan)
    requires FittingSplit(session, marshal, texts, limit, cuts)
    requires 0 < k <= |plan| && k < |cuts|
    ensures cuts[k] <= EndOf(plan[k - 1])
  {
    hide PayloadBytes;
    var start, end := plan[k - 1].itemOffset, EndOf(plan[k - 1]);
    assert WellCut(session, marshal, texts, limit, plan[k - 1]) && Full(session, marshal, texts, limit, plan[k - 1]);
    if k > 1 {
      GreedyStaysAhead(session, marshal, texts, limit, plan, cuts, k - 1);
    }
    if end < cuts[k] {
      PayloadMonotone(session, marshal, texts, (cuts[k - 1], cuts[k]), (start, end + 1));
      assert false;
    }
  }

  /** A maximal plan uses the fewest batches possible. */
  lemma GreedyIsOptimal<T>(
      session: Session, marshal: T -> string, texts: seq<T>, limit: int,
      plan: seq<Batch<T>>, cuts: seq<nat>)
    requires TilesUpTo(session, marshal, texts, limit, plan, |texts|)
    requires Maximal(session, marshal, texts, limit, plan)
    requires FittingSplit(session, marshal, texts, limit, cuts)
    ensures |plan| <= |cuts| - 1
  {
    hide PayloadBytes;
    if |cuts| - 1 < |plan| {
      assert WellCut(session, marshal, texts, limit, plan[|cuts| - 1]);
      if |cuts| > 1 {
        GreedyStaysAhead(session, marshal, texts, limit, plan, cuts, |cuts| - 1);
      }
      assert false;
    }
  }

  /** The caller sends the request unsplit exactly when the whole of it fits. */
  lemma DirectExactlyWhenWholeFits<T>(
      session: Session, marshal: T -> string, texts: seq<T>, limit: int, plan: seq<Batch<T>>)
    requires Fits(session, marshal, [], limit)
    requires TilesUpTo(session, marshal, texts, limit, plan, |texts|)
    requires Maximal(session, marshal, texts, limit, plan)
    ensures |plan| <= 1 <==> Fits(session, marshal, texts, limit)
  {
    assert texts[0..|texts|] == texts;
    if Fits(session, marshal, texts, limit) {
      var cuts: seq<nat> := if texts == [] then [0] else [0, |texts|];
      GreedyIsOptimal(session, marshal, texts, limit, plan, cuts);
    }
  }

  // ------------------------------------------------------------- the split

  /** Closing the open batch extends a plan and keeps it maximal, when the next text does not fit in any more. */
  lemma CloseBatch<T>(
      session: Session, marshal: T -> string, texts: seq<T>, limit: int,
      plan: seq<Batch<T>>, start: nat, end: nat)
    requires start < end <= |texts|
    requires TilesUpTo(session, marshal, texts, limit, plan, start)
    requires Maximal(session, marshal, texts, limit, plan)
    requires Fits(session, marshal, texts[start..end], limit)
    requires end < |texts| ==> !Fits(session, marshal, texts[start..end + 1], limit)
    ensures var b := Batch(
              texts[start..end], PayloadBytes(session, marshal, texts[start..end]), limit, start, end - start);
            && TilesUpTo(session, marshal, texts, limit, plan + [b], end)
            && Maximal(session, marshal, texts, limit, plan + [b])
  {
    hide PayloadBytes;
    var b := Batch(
      texts[start..end], PayloadBytes(session, marshal, texts[start..end]), limit, start, end - start);
    assert WellCut(session, marshal, texts, limit, b) && Full(session, marshal, texts, limit, b);
  }

  /** What the estimate for one more text comes to, whether it joins the open batch or starts its own. */
  lemma EstimateIsExact<T>(session: Session, marshal: T -> string, texts: seq<T>, start: nat, i: nat)
    requires start <= i < |texts|
    ensures PayloadBytes(session, marshal, texts[start..i + 1])
         == PayloadBytes(session, marshal, texts[start..i]) + |marshal(texts[i])| + (if i > start then 1 else 0)
    ensures PayloadBytes(session, marshal, texts[i..i + 1])
         == PayloadBytes(session, marshal, []) + |marshal(texts[i])|
  {
    PayloadGrows(session, marshal, texts[start..i], texts[i]);
    PayloadGrows(session, marshal, [], texts[i]);
    assert texts[start..i] + [texts[i]] == texts[start..i + 1];
    assert [] + [texts[i]] == texts[i..i + 1];
  }

  /** No contiguous split into fitting requests has fewer batches. */
  ghost predicate Optimal<T>(session: Session, marshal: T -> string, texts: seq<T>, limit: int, plan: seq<Batch<T>>) {
    forall cuts :: FittingSplit(session, marshal, texts, limit, cuts) ==> |plan| <= |cuts| - 1
  }

  lemma MaximalIsOptimal<T>(session: Session, marshal: T -> string, texts: seq<T>, limit: int, plan: seq<Batch<T>>)
    requires TilesUpTo(session, marshal, texts, limit, plan, |texts|)
    requires Maximal(session, marshal, texts, limit, plan)
    ensures Optimal(session, marshal, texts, limit, plan)
  {
    forall cuts | FittingSplit(session, marshal, texts, limit, cuts)
      ensures |plan| <= |cuts| - 1
    {
      GreedyIsOptimal(session, marshal, texts, limit, plan, cuts);
    }
  }

  /** The error for a text that does not fit into a request of its own. */
  method OversizedTextItemError<T>(
      session: Session, marshal: T -> string, texts: seq<T>, itemIndex: nat, maxRequestBytes: int)
    returns (e: SplitError)
    requires itemIndex < |texts|
    ensures e == PayloadTooLarge(
      PayloadBytes(session, marshal, texts[itemIndex..itemIndex + 1]), maxRequestBytes, Some(itemIndex))
  {
    var singleRequest := texts[itemIndex..itemIndex + 1];
    e := PayloadTooLarge(PayloadBytes(session, marshal, singleRequest), maxRequestBytes, Some(itemIndex));
  }

  /** Names the first text that does not fit into a request of its own. */
  ghost predicate FirstOversized<T>(
      session: Session, marshal: T -> string, texts: seq<T>, limit: int, e: SplitError)
  {
    && e.PayloadTooLarge? && e.itemIndex.Some? && e.maxRequestBytes == limit
    && var i := e.itemIndex.value;
    && i < |texts|
    && !ItemFits(session, marshal, texts, limit, i)
    && e.payloadBytes == PayloadBytes(session, marshal, texts[i..i + 1])
    && forall j :: 0 <= j < i ==> ItemFits(session, marshal, texts, limit, j)
  }

  method SplitTextRequest<T>(session: Session, marshal: T -> string, texts: seq<T>, maxRequestBytes: int)
    returns (r: Result<seq<Batch<T>>, SplitError>)
    // splitting succeeds exactly when the empty request and every single text fit
    ensures r.Ok? <==>
      && Fits(session, marshal, [], maxRequestBytes)
      && forall i :: 0 <= i < |texts| ==> ItemFits(session, marshal, texts, maxRequestBytes, i)
    ensures r.Ok? ==>
      && TilesUpTo(session, marshal, texts, maxRequestBytes, r.value, |texts|)
      && Maximal(session, marshal, texts, maxRequestBytes, r.value)
      && Optimal(session, marshal, texts, maxRequestBytes, r.value)
    // the estimate is never wrong: the only errors are a too large envelope and the first oversized text
    ensures !Fits(session, marshal, [], maxRequestBytes) ==>
      r == Err(PayloadTooLarge(PayloadBytes(session, marshal, []), maxRequestBytes, None))
    ensures r.Err? && Fits(session, marshal, [], maxRequestBytes) ==>
      FirstOversized(session, marshal, texts, maxRequestBytes, r.error)
  {
    hide PayloadBytes;
    var emptyPayloadBytes := PayloadBytes(session, marshal, []);
    if emptyPayloadBytes > maxRequestBytes {
      return Err(PayloadTooLarge(emptyPayloadBytes, maxRequestBytes, None));
    }

    var batches: seq<Batch<T>> := [];
    var start := 0;
    var estimatedPayloadBytes := emptyPayloadBytes;
    assert texts[0..0] == [];
    for itemIndex := 0 to |texts|
      invariant 0 <= start <= itemIndex
      invariant start == itemIndex ==> itemIndex == 0
      invariant estimatedPayloadBytes == PayloadBytes(session, marshal, texts[start..itemIndex]) <= maxRequestBytes
      invariant TilesUpTo(session, marshal, texts, maxRequestBytes, batches, start)
      invariant Maximal(session, marshal, texts, maxRequestBytes, batches)
      invariant forall j :: 0 <= j < itemIndex ==> ItemFits(session, marshal, texts, maxRequestBytes, j)
    {
      var encodedText := marshal(texts[itemIndex]);
      EstimateIsExact(session, marshal, texts, start, itemIndex);
      var nextPayloadBytes := estimatedPayloadBytes + |encodedText|;
      if itemIndex > start {
        nextPayloadBytes := nextPayloadBytes + 1;
      }
      if nextPayloadBytes <= maxRequestBytes {
        estimatedPayloadBytes := nextPayloadBytes;
        PayloadMonotone(session, marshal, texts, (start, itemIndex + 1), (itemIndex, itemIndex + 1));
        continue;
      }

      if itemIndex == start {
        var e := OversizedTextItemError(session, marshal, texts, itemIndex, maxRequestBytes);
        assert !ItemFits(session, marshal, texts, maxRequestBytes, itemIndex);
        return Err(e);
      }
      var batchRequest := texts[start..itemIndex];
      var payloadBytes := PayloadBytes(session, marshal, batchRequest);
      if payloadBytes > maxRequestBytes {
        assert false; // "size estimate mismatch" cannot happen
      }
      CloseBatch(session, marshal, texts, maxRequestBytes, batches, start, itemIndex);
      batches := batches + [Batch(batchRequest, payloadBytes, maxRequestBytes, start, itemIndex - start)];
      start := itemIndex;
      estimatedPayloadBytes := emptyPayloadBytes + |encodedText|;
      if estimatedPayloadBytes > maxRequestBytes {
        var e := OversizedTextItemError(session, marshal, texts, itemIndex, maxRequestBytes);
        assert !ItemFits(session, marshal, texts, maxRequestBytes, itemIndex);
        return Err(e);
      }
    }

    if start < |texts| {
      var batchRequest := texts[start..|texts|];
      var payloadBytes := PayloadBytes(session, marshal, batchRequest);
      if payloadBytes > maxRequestBytes {
        assert false; // "size estimate mismatch" cannot happen
      }
      CloseBatch(session, marshal, texts, maxRequestBytes, batches, start, |texts|);
      batches := batches + [Batch(batchRequest, payloadBytes, maxRequestBytes, start, |texts| - start)];
    }

    MaximalIsOptimal(session, marshal, texts, maxRequestBytes, batches);
    return Ok(batches);
  }
}
