/**
 How the batches of a split text request are run one after the other and their
 results merged (internal/core/io_tunnel/model_serverless_batch.go).

 The plugin and the caller's context are parameters: World.answer is the reply to a
 batch, World.cancelled(k) tells whether the context is done when batch k is about to
 start, and (for k the number of batches) when the coordinator finishes.
 */
module BatchCoordination {
  import opened Wrappers
  import opened TextBatching

  type Embedding = seq<real>

  datatype Usage = Usage(
    tokens: Option<int>, totalTokens: Option<int>, unitPrice: real, priceUnit: real,
    totalPrice: real, currency: Option<string>, latency: Option<real>)

  datatype EmbeddingResult = EmbeddingResult(model: string, embeddings: seq<Embedding>, usage: Usage)

  datatype Reason =
    | Unstated | TokenCount | ResponseCount | EmbeddingCount | MissingUsageField
    | ModelDiffers | UnitPriceDiffers | PriceUnitDiffers | CurrencyDiffers | FinalEmbeddingCount

  datatype Error =
    | Cancelled
    | Invocation(message: string)
    | Mismatch(batchIndex: nat, expectedItems: nat, actualItems: nat, responseCount: nat, reason: Reason)

  datatype Reply<R> = Results(results: seq<R>) | Failed(error: Error)

  datatype World<!T, !R> = World(answer: (nat, seq<T>) -> Reply<R>, cancelled: nat -> bool)

  /** How the response stream ends, and what the invocation is recorded as. */
  datatype Closing = Closed | ClosedWith(error: Error)
  datatype Outcome = Unmarked | Success | Failure

  /** The requests of the first k batches, in order. */
  function Requests<T>(batches: seq<Batch<T>>): seq<seq<T>> {
    seq(|batches|, i requires 0 <= i < |batches| => batches[i].request)
  }

  /** A plan that covers the texts, as SplitTextRequest makes it (more than one batch means at least one text). */
  ghost predicate Covers<T>(batches: seq<Batch<T>>, texts: seq<T>) {
    && Chained(batches, |texts|) && batches != []
    && forall k :: 0 <= k < |batches| ==>
         EndOf(batches[k]) <= |texts| && batches[k].request == texts[batches[k].itemOffset..EndOf(batches[k])]
  }

  lemma SplitCovers<T>(session: Session, marshal: T -> string, texts: seq<T>, limit: int, plan: seq<Batch<T>>)
    requires TilesUpTo(session, marshal, texts, limit, plan, |texts|) && plan != []
    ensures Covers(plan, texts)
  {
    hide PayloadBytes;
    forall k | 0 <= k < |plan|
      ensures EndOf(plan[k]) <= |texts| && plan[k].request == texts[plan[k].itemOffset..EndOf(plan[k])]
    {
      assert WellCut(session, marshal, texts, limit, plan[k]);
    }
  }

  /** The texts of requests, one request after the other. */
  function TextsOf<T>(requests: seq<seq<T>>): seq<T> {
    if requests == [] then [] else TextsOf(requests[..|requests| - 1]) + requests[|requests| - 1]
  }

  /** The first n batches of a plan hold the texts up to the end of the last of them, each once and in order. */
  lemma {:induction false} RequestsCover<T>(batches: seq<Batch<T>>, texts: seq<T>, n: nat)
    requires Covers(batches, texts) && n <= |batches|
    ensures TextsOf(Requests(batches[..n])) == texts[..if n == 0 then 0 else EndOf(batches[n - 1])]
  {
    if n > 0 {
      RequestsCover(batches, texts, n - 1);
      var b := batches[n - 1];
      assert Requests(batches[..n])[..n - 1] == Requests(batches[..n - 1]);
      assert texts[..EndOf(b)] == texts[..b.itemOffset] + b.request;
    }
  }

  // ------------------------------------------------------------- token counts

  function TokenStep(batchIndex: nat, itemCount: nat, merged: seq<int>, results: seq<seq<int>>)
    : Result<seq<int>, Error>
  {
    if |results| == 1 && |results[0]| == itemCount then Ok(merged + results[0])
    else
      var actualItems := if |results| == 1 then |results[0]| else 0;
      Err(Mismatch(batchIndex, itemCount, actualItems, |results|, TokenCount))
  }

  /** The token counts merged from the first k batches, or the error that stopped the run. */
  function TokensAfter<T>(world: World<T, seq<int>>, batches: seq<Batch<T>>, k: nat): Result<seq<int>, Error>
    requires k <= |batches|
  {
    if k == 0 then Ok([])
    else match TokensAfter(world, batches, k - 1)
      case Err(e) => Err(e)
      case Ok(merged) =>
        if world.cancelled(k - 1) then Err(Cancelled)
        else match world.answer(k - 1, batches[k - 1].request)
          case Failed(e) => Err(e)
          case Results(rs) => TokenStep(k - 1, batches[k - 1].itemCount, merged, rs)
  }

  /** Whatever the plugin answers, merged counts line up with the items they belong to. */
  lemma {:induction false} TokensLineUp<T>(world: World<T, seq<int>>, batches: seq<Batch<T>>, end: nat, k: nat)
    requires Chained(batches, end) && k <= |batches|
    requires TokensAfter(world, batches, k).Ok?
    ensures |TokensAfter(world, batches, k).value| == if k == 0 then 0 else EndOf(batches[k - 1])
  {
    if k > 0 {
      TokensLineUp(world, batches, end, k - 1);
    }
  }

  lemma {:induction false} TokensStayFailed<T>(world: World<T, seq<int>>, batches: seq<Batch<T>>, j: nat, k: nat)
    requires j <= k <= |batches| && TokensAfter(world, batches, j).Err?
    ensures TokensAfter(world, batches, k) == TokensAfter(world, batches, j)
    decreases k
  {
    if j < k {
      TokensStayFailed(world, batches, j, k - 1);
    }
  }

  /** Batch i is answered with one list that has a count for each of its items. */
  ghost predicate Counts<T>(world: World<T, seq<int>>, batches: seq<Batch<T>>, i: nat)
    requires i < |batches|
  {
    && !world.cancelled(i)
    && var reply := world.answer(i, batches[i].request);
    && reply.Results? && |reply.results| == 1 && |reply.results[0]| == batches[i].itemCount
  }

  ghost function AllCounts<T>(world: World<T, seq<int>>, batches: seq<Batch<T>>, k: nat): seq<int>
    requires k <= |batches| && forall i :: 0 <= i < k ==> Counts(world, batches, i)
  {
    if k == 0 then []
    else
      assert Counts(world, batches, k - 1);
      AllCounts(world, batches, k - 1) + world.answer(k - 1, batches[k - 1].request).results[0]
  }

  /** A run succeeds exactly when each batch is answered item by item, whatever the counts are; they are then joined. */
  lemma {:induction false} TokensMergeExactlyWhen<T>(world: World<T, seq<int>>, batches: seq<Batch<T>>, k: nat)
    requires k <= |batches|
    ensures TokensAfter(world, batches, k).Ok? <==> forall i :: 0 <= i < k ==> Counts(world, batches, i)
    ensures TokensAfter(world, batches, k).Ok? ==> TokensAfter(world, batches, k).value == AllCounts(world, batches, k)
  {
    if k > 0 {
      TokensMergeExactlyWhen(world, batches, k - 1);
      assert (forall i :: 0 <= i < k ==> Counts(world, batches, i))
        <==> (forall i :: 0 <= i < k - 1 ==> Counts(world, batches, i)) && Counts(world, batches, k - 1);
    }
  }

  /** What stops a run at batch k, after batches that were counted: the context, the plugin's own error, or a miscount. */
  lemma TokensStopAt<T>(world: World<T, seq<int>>, batches: seq<Batch<T>>, k: nat)
    requires k < |batches| && !Counts(world, batches, k) && forall i :: 0 <= i < k ==> Counts(world, batches, i)
    ensures TokensAfter(world, batches, |batches|).Err?
    ensures var e, reply := TokensAfter(world, batches, |batches|).error, world.answer(k, batches[k].request);
            if world.cancelled(k) then e == Cancelled
            else if reply.Failed? then e == reply.error
            else e == Mismatch(k, batches[k].itemCount, if |reply.results| == 1 then |reply.results[0]| else 0,
                               |reply.results|, TokenCount)
  {
    TokensMergeExactlyWhen(world, batches, k);
    assert !Counts(world, batches, k);
    TokensStayFailed(world, batches, k + 1, |batches|);
  }

  function Counted<T>(count: T -> int, texts: seq<T>): seq<int> {
    seq(|texts|, i requires 0 <= i < |texts| => count(texts[i]))
  }

  /** Every batch is answered item by item, and nothing is cancelled. */
  ghost predicate CountsItems<T(!new)>(world: World<T, seq<int>>, count: T -> int) {
    && (forall k :: !world.cancelled(k))
    && forall k, texts :: world.answer(k, texts) == Results([Counted(count, texts)])
  }

  lemma {:induction false} TokensEqualWhole<T(!new)>(
      world: World<T, seq<int>>, batches: seq<Batch<T>>, texts: seq<T>, count: T -> int, k: nat)
    requires Covers(batches, texts) && CountsItems(world, count) && k <= |batches|
    ensures TokensAfter(world, batches, k)
         == Ok(Counted(count, texts[..if k == 0 then 0 else EndOf(batches[k - 1])]))
  {
    if k > 0 {
      TokensEqualWhole(world, batches, texts, count, k - 1);
      var b := batches[k - 1];
      assert texts[..EndOf(b)] == texts[..b.itemOffset] + b.request;
      assert Counted(count, texts[..EndOf(b)]) == Counted(count, texts[..b.itemOffset]) + Counted(count, b.request);
    } else {
      assert Counted(count, texts[..0]) == [];
    }
  }

  /** n batches are sent: all of them, or those up to the first failure. A batch that is cancelled is not sent. */
  ghost predicate TokensSent<T>(world: World<T, seq<int>>, batches: seq<Batch<T>>, n: nat) {
    && n <= |batches|
    && (forall i :: 0 <= i < n ==> TokensAfter(world, batches, i).Ok?)
    && if TokensAfter(world, batches, n).Ok? then n == |batches| || world.cancelled(n)
       else n > 0 && !world.cancelled(n - 1)
  }

  /** How many batches are sent: all, or those before the first that is not counted, and that one, too, unless it is cancelled. */
  lemma TokensSentExactly<T>(world: World<T, seq<int>>, batches: seq<Batch<T>>, n: nat, k: nat)
    requires k <= |batches| && (forall i :: 0 <= i < k ==> Counts(world, batches, i))
    requires k < |batches| ==> !Counts(world, batches, k)
    ensures TokensSent(world, batches, n) <==> n == if k < |batches| && !world.cancelled(k) then k + 1 else k
  {
    TokensMergeExactlyWhen(world, batches, k);
    if k < |batches| {
      TokensMergeExactlyWhen(world, batches, k + 1);
    }
    if n <= |batches| {
      TokensMergeExactlyWhen(world, batches, n);
    }
    forall i | 0 <= i <= k ensures TokensAfter(world, batches, i).Ok? {
      TokensMergeExactlyWhen(world, batches, i);
    }
    if n < k {
      assert Counts(world, batches, n);
    }
  }

  method ProcessTokenCountBatches<T>(world: World<T, seq<int>>, batches: seq<Batch<T>>)
    returns (err: Option<Error>, mergedNumTokens: seq<int>, sent: seq<seq<T>>)
    ensures TokensSent(world, batches, |sent|) && sent == Requests(batches[..|sent|])
    ensures match TokensAfter(world, batches, |batches|)
            case Err(e) => err == Some(e)
            case Ok(merged) => err == None && mergedNumTokens == merged && |sent| == |batches|
  {
    err, mergedNumTokens, sent := None, [], [];
    for batchIndex := 0 to |batches|
      invariant err == None && TokensAfter(world, batches, batchIndex) == Ok(mergedNumTokens)
      invariant |sent| == batchIndex && sent == Requests(batches[..batchIndex])
      invariant forall i :: 0 <= i < batchIndex ==> TokensAfter(world, batches, i).Ok?
    {
      if world.cancelled(batchIndex) {
        err := Some(Cancelled);
        TokensStayFailed(world, batches, batchIndex + 1, |batches|);
        break;
      }
      var batch := batches[batchIndex];
      sent := sent + [batch.request];
      var step := match world.answer(batchIndex, batch.request)
        case Failed(e) => Err(e)
        case Results(results) => TokenStep(batchIndex, batch.itemCount, mergedNumTokens, results);
      if step.Err? {
        err := Some(step.error);
        TokensStayFailed(world, batches, batchIndex + 1, |batches|);
        break;
      }
      mergedNumTokens := step.value;
    }
  }

  method CoordinateTokenCountBatches<T(!new)>(
      world: World<T, seq<int>>, originalTexts: seq<T>, batches: seq<Batch<T>>)
    returns (written: Option<seq<int>>, closing: Closing, outcome: Outcome, sent: seq<seq<T>>)
    // batches run in order, and none runs after one has failed
    ensures TokensSent(world, batches, |sent|) && sent == Requests(batches[..|sent|])
    ensures TokensAfter(world, batches, |batches|).Ok? ==> |sent| == |batches|
    // a result is written only when every batch succeeded
    ensures written.Some? ==> TokensAfter(world, batches, |batches|) == Ok(written.value)
    ensures written.Some? <==> closing == Closed
    ensures TokensAfter(world, batches, |batches|).Err? ==>
      closing == ClosedWith(TokensAfter(world, batches, |batches|).error)
    ensures outcome == if TokensAfter(world, batches, |batches|).Ok? && written.None? then Failure
                       else if world.cancelled(|batches|) then Unmarked
                       else if written.Some? then Success else Failure
    // for a plan made by the splitter the final count always matches
    ensures Covers(batches, originalTexts) ==>
      (written.Some? <==> TokensAfter(world, batches, |batches|).Ok?)
    ensures Covers(batches, originalTexts) && written.Some? ==> |written.value| == |originalTexts|
    // batched equals unbatched
    ensures forall count :: Covers(batches, originalTexts) && CountsItems(world, count) ==>
      written == Some(Counted(count, originalTexts)) && outcome == Success
  {
    var err, mergedNumTokens;
    err, mergedNumTokens, sent := ProcessTokenCountBatches(world, batches);
    forall count | Covers(batches, originalTexts) && CountsItems(world, count)
      ensures TokensAfter(world, batches, |batches|) == Ok(Counted(count, originalTexts))
    {
      TokensEqualWhole(world, batches, originalTexts, count, |batches|);
      assert originalTexts[..|originalTexts|] == originalTexts;
    }
    if err.Some? {
      return None, ClosedWith(err.value), if world.cancelled(|batches|) then Unmarked else Failure, sent;
    }
    if Chained(batches, |originalTexts|) {
      TokensLineUp(world, batches, |originalTexts|, |batches|);
    }
    if |mergedNumTokens| != |originalTexts| {
      return None,
             ClosedWith(Mismatch(|batches|, |originalTexts|, |mergedNumTokens|, 1, Unstated)),
             Failure, sent;
    }
    return Some(mergedNumTokens), Closed, if world.cancelled(|batches|) then Unmarked else Success, sent;
  }

  // ------------------------------------------------------------- embeddings

  predicate UsageComplete(usage: Usage) {
    usage.tokens.Some? && usage.totalTokens.Some? && usage.currency.Some? && usage.latency.Some?
  }

  /** Why a complete batch result cannot join what is merged so far. */
  function Disagreement(merged: EmbeddingResult, r: EmbeddingResult): Option<Reason> {
    if r.model != merged.model then Some(ModelDiffers)
    else if r.usage.unitPrice != merged.usage.unitPrice then Some(UnitPriceDiffers)
    else if r.usage.priceUnit != merged.usage.priceUnit then Some(PriceUnitDiffers)
    else if r.usage.currency != merged.usage.currency then Some(CurrencyDiffers)
    else None
  }

  function AddUsage(a: Usage, b: Usage): Usage
    requires UsageComplete(a) && UsageComplete(b)
  {
    a.(tokens := Some(a.tokens.value + b.tokens.value),
       totalTokens := Some(a.totalTokens.value + b.totalTokens.value),
       totalPrice := a.totalPrice + b.totalPrice,
       latency := Some(a.latency.value + b.latency.value))
  }

  function MergeStep(batchIndex: nat, expectedItems: nat, merged: Option<EmbeddingResult>, r: EmbeddingResult)
    : (out: Result<EmbeddingResult, Error>)
    requires merged.Some? ==> UsageComplete(merged.value.usage)
    ensures out.Ok? ==> UsageComplete(out.value.usage)
  {
    if |r.embeddings| != expectedItems then
      Err(Mismatch(batchIndex, expectedItems, |r.embeddings|, 1, EmbeddingCount))
    else if !UsageComplete(r.usage) then
      Err(Mismatch(batchIndex, expectedItems, |r.embeddings|, 1, MissingUsageField))
    else match merged
      case None => Ok(r)
      case Some(m) =>
        match Disagreement(m, r)
        case Some(reason) => Err(Mismatch(batchIndex, expectedItems, expectedItems, 1, reason))
        case None => Ok(EmbeddingResult(m.model, m.embeddings + r.embeddings, AddUsage(m.usage, r.usage)))
  }

  /**
   A batch result joins what is merged so far when it has an embedding for every item, complete usage, and the model, prices
   and currency of what it joins.
   */
  predicate Joins(merged: Option<EmbeddingResult>, r: EmbeddingResult, expectedItems: nat) {
    && |r.embeddings| == expectedItems
    && r.usage.tokens.Some? && r.usage.totalTokens.Some? && r.usage.currency.Some? && r.usage.latency.Some?
    && (merged.Some? ==>
          && r.model == merged.value.model
          && r.usage.unitPrice == merged.value.usage.unitPrice
          && r.usage.priceUnit == merged.value.usage.priceUnit
          && r.usage.currency == merged.value.usage.currency)
  }

  /** A batch result is merged exactly when it joins. */
  lemma MergesExactlyWhen(batchIndex: nat, expectedItems: nat, merged: Option<EmbeddingResult>, r: EmbeddingResult)
    requires merged.Some? ==> UsageComplete(merged.value.usage)
    ensures MergeStep(batchIndex, expectedItems, merged, r).Ok? <==> Joins(merged, r, expectedItems)
  {
  }

  /** The result being merged, written through a pointer as batches complete. */
  class MergedResult {
    var result: Option<EmbeddingResult>

    ghost predicate Valid()
      reads this
    {
      result.Some? ==> UsageComplete(result.value.usage)
    }

    constructor ()
      ensures result == None && Valid()
    {
      result := None;
    }

    /** A batch that is rejected leaves the merged result as it was. */
    method Merge(batchIndex: nat, expectedItems: nat, batchResult: EmbeddingResult) returns (err: Option<Error>)
      requires Valid()
      modifies this
      ensures Valid()
      ensures match MergeStep(batchIndex, expectedItems, old(result), batchResult)
              case Ok(m) => err == None && result == Some(m)
              case Err(e) => err == Some(e) && result == old(result)
      ensures err == None <==> Joins(old(result), batchResult, expectedItems)
    {
      if |batchResult.embeddings| != expectedItems {
        return Some(Mismatch(batchIndex, expectedItems, |batchResult.embeddings|, 1, EmbeddingCount));
      }
      var usage := batchResult.usage;
      if usage.tokens == None || usage.totalTokens == None || usage.currency == None || usage.latency == None {
        return Some(Mismatch(batchIndex, expectedItems, |batchResult.embeddings|, 1, MissingUsageField));
      }
      if result == None {
        result := Some(batchResult);
        return None;
      }
      var merged := result.value;
      var reason := Disagreement(merged, batchResult);
      if reason.Some? {
        return Some(Mismatch(batchIndex, expectedItems, expectedItems, 1, reason.value));
      }
      merged := merged.(embeddings := merged.embeddings + batchResult.embeddings);
      merged := merged.(usage := merged.usage.(
        tokens := Some(merged.usage.tokens.value + usage.tokens.value),
        totalTokens := Some(merged.usage.totalTokens.value + usage.totalTokens.value),
        totalPrice := merged.usage.totalPrice + usage.totalPrice,
        latency := Some(merged.usage.latency.value + usage.latency.value)));
      result := Some(merged);
      return None;
    }
  }

  /** A batch result that is rejected is rejected for the first thing that is wrong with it. */
  lemma RejectedFor(batchIndex: nat, expectedItems: nat, merged: Option<EmbeddingResult>, r: EmbeddingResult)
    requires merged.Some? ==> UsageComplete(merged.value.usage)
    requires MergeStep(batchIndex, expectedItems, merged, r).Err?
    ensures var e := MergeStep(batchIndex, expectedItems, merged, r).error;
            && e.Mismatch? && e.batchIndex == batchIndex && e.expectedItems == expectedItems
            && e.actualItems == |r.embeddings| && e.responseCount == 1
            && (e.reason == EmbeddingCount <==> |r.embeddings| != expectedItems)
            && (e.reason == MissingUsageField <==>
                  && |r.embeddings| == expectedItems
                  && !(r.usage.tokens.Some? && r.usage.totalTokens.Some? && r.usage.currency.Some? && r.usage.latency.Some?))
            && (e.reason == ModelDiffers ==> merged.Some? && r.model != merged.value.model)
            && (e.reason == UnitPriceDiffers ==>
                  merged.Some? && r.model == merged.value.model && r.usage.unitPrice != merged.value.usage.unitPrice)
            && (e.reason == PriceUnitDiffers ==>
                  && merged.Some? && r.model == merged.value.model && r.usage.unitPrice == merged.value.usage.unitPrice
                  && r.usage.priceUnit != merged.value.usage.priceUnit)
            && (e.reason == CurrencyDiffers ==>
                  && merged.Some? && r.model == merged.value.model && r.usage.unitPrice == merged.value.usage.unitPrice
                  && r.usage.priceUnit == merged.value.usage.priceUnit && r.usage.currency != merged.value.usage.currency)
            && e.reason in {EmbeddingCount, MissingUsageField, ModelDiffers, UnitPriceDiffers, PriceUnitDiffers, CurrencyDiffers}
  {
  }

  /** The result merged from the first k batches, or the error that stopped the run. */
  function EmbeddingsAfter<T>(world: World<T, EmbeddingResult>, batches: seq<Batch<T>>, k: nat)
    : (out: Result<Option<EmbeddingResult>, Error>)
    requires k <= |batches|
    ensures out.Ok? && out.value.Some? ==> UsageComplete(out.value.value.usage)
  {
    if k == 0 then Ok(None)
    else match EmbeddingsAfter(world, batches, k - 1)
      case Err(e) => Err(e)
      case Ok(merged) =>
        if world.cancelled(k - 1) then Err(Cancelled)
        else match world.answer(k - 1, batches[k - 1].request)
          case Failed(e) => Err(e)
          case Results(rs) =>
            if |rs| != 1 then Err(Mismatch(k - 1, batches[k - 1].itemCount, 0, |rs|, ResponseCount))
            else match MergeStep(k - 1, batches[k - 1].itemCount, merged, rs[0])
              case Err(e) => Err(e)
              case Ok(m) => Ok(Some(m))
  }

  lemma {:induction false} EmbeddingsStayFailed<T>(
      world: World<T, EmbeddingResult>, batches: seq<Batch<T>>, j: nat, k: nat)
    requires j <= k <= |batches| && EmbeddingsAfter(world, batches, j).Err?
    ensures EmbeddingsAfter(world, batches, k) == EmbeddingsAfter(world, batches, j)
    decreases k
  {
    if j < k {
      EmbeddingsStayFailed(world, batches, j, k - 1);
    }
  }

  /** Whatever the plugin answers, merged embeddings line up with the items they belong to. */
  lemma {:induction false} EmbeddingsLineUp<T>(
      world: World<T, EmbeddingResult>, batches: seq<Batch<T>>, end: nat, k: nat)
    requires Chained(batches, end) && k <= |batches|
    requires EmbeddingsAfter(world, batches, k).Ok?
    ensures EmbeddingsAfter(world, batches, k).value.Some? <==> k > 0
    ensures k > 0 ==> |EmbeddingsAfter(world, batches, k).value.value.embeddings| == EndOf(batches[k - 1])
  {
    if k > 0 {
      EmbeddingsLineUp(world, batches, end, k - 1);
    }
  }

  /** What a request, or one item of it, costs. */
  datatype Cost = Cost(tokens: int, totalTokens: int, price: real, latency: real) {
    function Plus(c: Cost): Cost {
      Cost(tokens + c.tokens, totalTokens + c.totalTokens, price + c.price, latency + c.latency)
    }
  }

  function CostOf(usage: Usage): Cost
    requires UsageComplete(usage)
  {
    Cost(usage.tokens.value, usage.totalTokens.value, usage.totalPrice, usage.latency.value)
  }

  /** Batch i is answered with one result that has an embedding for each of its items and complete usage. */
  ghost predicate Answered<T>(world: World<T, EmbeddingResult>, batches: seq<Batch<T>>, i: nat)
    requires i < |batches|
  {
    && !world.cancelled(i)
    && var reply := world.answer(i, batches[i].request);
    && reply.Results? && |reply.results| == 1
    && |reply.results[0].embeddings| == batches[i].itemCount
    && var usage := reply.results[0].usage;
    && usage.tokens.Some? && usage.totalTokens.Some? && usage.currency.Some? && usage.latency.Some?
  }

  ghost function ResultOf<T>(world: World<T, EmbeddingResult>, batches: seq<Batch<T>>, i: nat): EmbeddingResult
    requires i < |batches| && Answered(world, batches, i)
  {
    world.answer(i, batches[i].request).results[0]
  }

  /** The first k batches are all answered, under the model and prices of the first one. */
  ghost predicate Agreeing<T>(world: World<T, EmbeddingResult>, batches: seq<Batch<T>>, k: nat)
    requires k <= |batches|
  {
    && (forall i :: 0 <= i < k ==> Answered(world, batches, i))
    && forall i :: 0 <= i < k ==> OnTheTermsOf(ResultOf(world, batches, 0), ResultOf(world, batches, i))
  }

  predicate OnTheTermsOf(first: EmbeddingResult, r: EmbeddingResult) {
    && r.model == first.model
    && r.usage.unitPrice == first.usage.unitPrice
    && r.usage.priceUnit == first.usage.priceUnit
    && r.usage.currency == first.usage.currency
  }

  ghost function AllEmbeddings<T>(world: World<T, EmbeddingResult>, batches: seq<Batch<T>>, k: nat): seq<Embedding>
    requires k <= |batches| && Agreeing(world, batches, k)
  {
    if k == 0 then []
    else AllEmbeddings(world, batches, k - 1) + ResultOf(world, batches, k - 1).embeddings
  }

  ghost function AllCosts<T>(world: World<T, EmbeddingResult>, batches: seq<Batch<T>>, k: nat): Cost
    requires k <= |batches| && Agreeing(world, batches, k)
  {
    if k == 0 then Cost(0, 0, 0.0, 0.0)
    else AllCosts(world, batches, k - 1).Plus(CostOf(ResultOf(world, batches, k - 1).usage))
  }

  /** A run succeeds exactly when all batches agree; its result is then their concatenation with summed usage. */
  lemma {:induction false} MergesExactlyWhatAgrees<T>(
      world: World<T, EmbeddingResult>, batches: seq<Batch<T>>, k: nat)
    requires k <= |batches|
    ensures EmbeddingsAfter(world, batches, k).Ok? <==> Agreeing(world, batches, k)
    ensures k > 0 && Agreeing(world, batches, k) ==>
      var first := ResultOf(world, batches, 0);
      var out := EmbeddingsAfter(world, batches, k).value;
      && out.Some?
      && out.value.embeddings == AllEmbeddings(world, batches, k)
      && CostOf(out.value.usage) == AllCosts(world, batches, k)
      && OnTheTermsOf(first, out.value)
  {
    if k > 0 {
      MergesExactlyWhatAgrees(world, batches, k - 1);
      if Agreeing(world, batches, k) {
        assert Agreeing(world, batches, k - 1) && Answered(world, batches, k - 1);
        assert OnTheTermsOf(ResultOf(world, batches, 0), ResultOf(world, batches, k - 1));
      }
      if EmbeddingsAfter(world, batches, k).Ok? {
        assert Answered(world, batches, k - 1);
        var first, last := ResultOf(world, batches, 0), ResultOf(world, batches, k - 1);
        assert OnTheTermsOf(first, last);
      }
    }
  }

  /**
   What stops a run at batch k, after batches that agree: the context, the plugin's own error, a reply that is not one
   result, or the first thing that is wrong with that result, batch 0 setting the terms.
   */
  lemma EmbeddingsStopAt<T>(world: World<T, EmbeddingResult>, batches: seq<Batch<T>>, k: nat)
    requires k < |batches| && Agreeing(world, batches, k) && !Agreeing(world, batches, k + 1)
    ensures EmbeddingsAfter(world, batches, |batches|).Err?
    ensures var e, reply := EmbeddingsAfter(world, batches, |batches|).error, world.answer(k, batches[k].request);
            if world.cancelled(k) then e == Cancelled
            else if reply.Failed? then e == reply.error
            else if |reply.results| != 1 then e == Mismatch(k, batches[k].itemCount, 0, |reply.results|, ResponseCount)
            else
              var r := reply.results[0];
              e == Mismatch(k, batches[k].itemCount, |r.embeddings|, 1,
                            if |r.embeddings| != batches[k].itemCount then EmbeddingCount
                            else if !Answered(world, batches, k) then MissingUsageField
                            else if r.model != ResultOf(world, batches, 0).model then ModelDiffers
                            else if r.usage.unitPrice != ResultOf(world, batches, 0).usage.unitPrice then UnitPriceDiffers
                            else if r.usage.priceUnit != ResultOf(world, batches, 0).usage.priceUnit then PriceUnitDiffers
                            else CurrencyDiffers)
  {
    MergesExactlyWhatAgrees(world, batches, k);
    MergesExactlyWhatAgrees(world, batches, k + 1);
    EmbeddingsStayFailed(world, batches, k + 1, |batches|);
  }

  /** A plugin that treats every text on its own, under one model and one price list. */
  datatype ItemPlugin<!T> = ItemPlugin(
    model: string, unitPrice: real, priceUnit: real, currency: string,
    embed: T -> Embedding, cost: T -> Cost)

  function TotalCost<T>(plugin: ItemPlugin<T>, texts: seq<T>): Cost {
    if texts == [] then Cost(0, 0, 0.0, 0.0)
    else TotalCost(plugin, texts[..|texts| - 1]).Plus(plugin.cost(texts[|texts| - 1]))
  }

  function Embedded<T>(embed: T -> Embedding, texts: seq<T>): seq<Embedding> {
    seq(|texts|, i requires 0 <= i < |texts| => embed(texts[i]))
  }

  /** The plugin's reply to a request with these texts. */
  function Answer<T>(plugin: ItemPlugin<T>, texts: seq<T>): EmbeddingResult {
    var total := TotalCost(plugin, texts);
    EmbeddingResult(plugin.model, Embedded(plugin.embed, texts),
      Usage(Some(total.tokens), Some(total.totalTokens), plugin.unitPrice, plugin.priceUnit,
            total.price, Some(plugin.currency), Some(total.latency)))
  }

  lemma PlusAssociates(a: Cost, b: Cost, c: Cost)
    ensures a.Plus(b).Plus(c) == a.Plus(b.Plus(c))
  {
  }

  lemma EmbeddedAppend<T>(embed: T -> Embedding, a: seq<T>, b: seq<T>)
    ensures Embedded(embed, a + b) == Embedded(embed, a) + Embedded(embed, b)
  {
  }

  lemma {:induction false} TotalCostAppend<T>(plugin: ItemPlugin<T>, a: seq<T>, b: seq<T>)
    ensures TotalCost(plugin, a + b) == TotalCost(plugin, a).Plus(TotalCost(plugin, b))
    decreases |b|
  {
    if b == [] {
      assert a + b == a;
    } else {
      var init, last := b[..|b| - 1], b[|b| - 1];
      TotalCostAppend(plugin, a, init);
      assert (a + b)[..|a + b| - 1] == a + init && (a + b)[|a + b| - 1] == last;
      PlusAssociates(TotalCost(plugin, a), TotalCost(plugin, init), plugin.cost(last));
    }
  }

  ghost predicate AnswersItems<T(!new)>(world: World<T, EmbeddingResult>, plugin: ItemPlugin<T>) {
    && (forall k :: !world.cancelled(k))
    && forall k, texts :: world.answer(k, texts) == Results([Answer(plugin, texts)])
  }

  lemma FirstAnswer<T>(plugin: ItemPlugin<T>, i: nat, a: seq<T>)
    ensures MergeStep(i, |a|, None, Answer(plugin, a)) == Ok(Answer(plugin, a))
  {
  }

  /** Merging two answers gives the answer to the joined request. */
  lemma AnswersMerge<T>(plugin: ItemPlugin<T>, i: nat, a: seq<T>, b: seq<T>)
    ensures MergeStep(i, |b|, Some(Answer(plugin, a)), Answer(plugin, b)) == Ok(Answer(plugin, a + b))
  {
    TotalCostAppend(plugin, a, b);
    EmbeddedAppend(plugin.embed, a, b);
    hide TotalCost;
    assert Disagreement(Answer(plugin, a), Answer(plugin, b)) == None;
    assert |Embedded(plugin.embed, b)| == |b|;
    hide Embedded, Disagreement;
  }

  lemma {:induction false} EmbeddingsEqualWhole<T(!new)>(
      world: World<T, EmbeddingResult>, batches: seq<Batch<T>>, texts: seq<T>, plugin: ItemPlugin<T>, k: nat)
    requires Covers(batches, texts) && AnswersItems(world, plugin) && k <= |batches|
    ensures EmbeddingsAfter(world, batches, k)
         == Ok(if k == 0 then None else Some(Answer(plugin, texts[..EndOf(batches[k - 1])])))
  {
    if k > 0 {
      EmbeddingsEqualWhole(world, batches, texts, plugin, k - 1);
      var b := batches[k - 1];
      assert world.answer(k - 1, b.request) == Results([Answer(plugin, b.request)]);
      assert texts[..EndOf(b)] == texts[..b.itemOffset] + b.request;
      hide Answer, MergeStep;
      if k == 1 {
        assert texts[..EndOf(b)] == b.request;
        FirstAnswer(plugin, 0, b.request);
      } else {
        AnswersMerge(plugin, k - 1, texts[..b.itemOffset], b.request);
      }
    }
  }

  ghost predicate EmbeddingsSent<T>(world: World<T, EmbeddingResult>, batches: seq<Batch<T>>, n: nat) {
    && n <= |batches|
    && (forall i :: 0 <= i < n ==> EmbeddingsAfter(world, batches, i).Ok?)
    && if EmbeddingsAfter(world, batches, n).Ok? then n == |batches| || world.cancelled(n)
       else n > 0 && !world.cancelled(n - 1)
  }

  /** How many batches are sent: all, or those before the first that does not agree, and that one, too, unless it is cancelled. */
  lemma EmbeddingsSentExactly<T>(world: World<T, EmbeddingResult>, batches: seq<Batch<T>>, n: nat, k: nat)
    requires k <= |batches| && Agreeing(world, batches, k)
    requires k < |batches| ==> !Agreeing(world, batches, k + 1)
    ensures EmbeddingsSent(world, batches, n) <==> n == if k < |batches| && !world.cancelled(k) then k + 1 else k
  {
    forall i | 0 <= i <= |batches| ensures EmbeddingsAfter(world, batches, i).Ok? <==> i <= k {
      MergesExactlyWhatAgrees(world, batches, i);
      if i > k {
        MergesExactlyWhatAgrees(world, batches, k + 1);
        EmbeddingsStayFailed(world, batches, k + 1, i);
      } else {
        assert Agreeing(world, batches, i);
      }
    }
    assert n < k ==> Answered(world, batches, n);
    hide EmbeddingsAfter, Agreeing, Answered;
    if EmbeddingsSent(world, batches, n) {
      assert n > k + 1 ==> EmbeddingsAfter(world, batches, k + 1).Ok?;
    }
  }

  method ProcessEmbeddingBatches<T>(
      world: World<T, EmbeddingResult>, batches: seq<Batch<T>>, mergedResult: MergedResult)
    returns (err: Option<Error>, sent: seq<seq<T>>)
    requires mergedResult.result == None
    modifies mergedResult
    ensures EmbeddingsSent(world, batches, |sent|) && sent == Requests(batches[..|sent|])
    ensures match EmbeddingsAfter(world, batches, |batches|)
            case Err(e) => err == Some(e)
            case Ok(merged) => err == None && mergedResult.result == merged && |sent| == |batches|
  {
    hide MergeStep, Joins;
    err := None;
    sent := [];
    for batchIndex := 0 to |batches|
      invariant mergedResult.Valid()
      invariant err == None && EmbeddingsAfter(world, batches, batchIndex) == Ok(mergedResult.result)
      invariant |sent| == batchIndex && sent == Requests(batches[..batchIndex])
      invariant forall i :: 0 <= i < batchIndex ==> EmbeddingsAfter(world, batches, i).Ok?
    {
      if world.cancelled(batchIndex) {
        err := Some(Cancelled);
        EmbeddingsStayFailed(world, batches, batchIndex + 1, |batches|);
        break;
      }
      var batch := batches[batchIndex];
      sent := sent + [batch.request];
      match world.answer(batchIndex, batch.request) {
        case Failed(e) =>
          err := Some(e);
        case Results(results) =>
          if |results| != 1 {
            err := Some(Mismatch(batchIndex, batch.itemCount, 0, |results|, ResponseCount));
          } else {
            err := mergedResult.Merge(batchIndex, batch.itemCount, results[0]);
          }
      }
      if err.Some? {
        EmbeddingsStayFailed(world, batches, batchIndex + 1, |batches|);
        break;
      }
    }
  }

  method CoordinateTextEmbeddingBatches<T(!new)>(
      world: World<T, EmbeddingResult>, originalTexts: seq<T>, batches: seq<Batch<T>>)
    returns (written: Option<EmbeddingResult>, closing: Closing, outcome: Outcome, sent: seq<seq<T>>)
    // batches run in order, and none runs after one has failed
    ensures EmbeddingsSent(world, batches, |sent|) && sent == Requests(batches[..|sent|])
    ensures EmbeddingsAfter(world, batches, |batches|).Ok? ==> |sent| == |batches|
    // a result is written only when every batch succeeded
    ensures written.Some? ==> EmbeddingsAfter(world, batches, |batches|) == Ok(written)
    ensures written.Some? <==> closing == Closed
    ensures EmbeddingsAfter(world, batches, |batches|).Err? ==>
      closing == ClosedWith(EmbeddingsAfter(world, batches, |batches|).error)
    ensures outcome == if EmbeddingsAfter(world, batches, |batches|).Ok? && written.None? then Failure
                       else if world.cancelled(|batches|) then Unmarked
                       else if written.Some? then Success else Failure
    // for a plan made by the splitter the final count always matches
    ensures Covers(batches, originalTexts) ==>
      (written.Some? <==> EmbeddingsAfter(world, batches, |batches|).Ok?)
    ensures written.Some? ==> |written.value.embeddings| == |originalTexts|
    // batched equals unbatched
    ensures forall plugin :: Covers(batches, originalTexts) && AnswersItems(world, plugin) ==>
      written == Some(Answer(plugin, originalTexts)) && outcome == Success
  {
    hide Answer, MergeStep, EmbeddingsAfter;
    var mergedResult := new MergedResult();
    var err;
    err, sent := ProcessEmbeddingBatches(world, batches, mergedResult);
    forall plugin | Covers(batches, originalTexts) && AnswersItems(world, plugin)
      ensures EmbeddingsAfter(world, batches, |batches|) == Ok(Some(Answer(plugin, originalTexts)))
    {
      EmbeddingsEqualWhole(world, batches, originalTexts, plugin, |batches|);
      assert originalTexts[..|originalTexts|] == originalTexts;
    }
    if err.Some? {
      return None, ClosedWith(err.value), if world.cancelled(|batches|) then Unmarked else Failure, sent;
    }
    if Chained(batches, |originalTexts|) {
      EmbeddingsLineUp(world, batches, |originalTexts|, |batches|);
    }
    var merged := mergedResult.result;
    if merged == None || |merged.value.embeddings| != |originalTexts| {
      var actualItems := if merged == None then 0 else |merged.value.embeddings|;
      return None,
             ClosedWith(Mismatch(|batches|, |originalTexts|, actualItems, 1, FinalEmbeddingCount)),
             Failure, sent;
    }
    return merged, Closed, if world.cancelled(|batches|) then Unmarked else Success, sent;
  }

  // ------------------------------------------------------------- the whole request

  datatype Response =
    | LimitUnavailable
    | Rejected(reason: SplitError)
    | Streamed(results: seq<EmbeddingResult>, closing: Closing)

  /** What the caller of a split request sees: the merged result, or the error of the batch the run stopped at. */
  function Relayed<T>(world: World<T, EmbeddingResult>, batches: seq<Batch<T>>): Response {
    match EmbeddingsAfter(world, batches, |batches|)
    case Err(e) => Streamed([], ClosedWith(e))
    case Ok(merged) => Streamed(if merged.Some? then [merged.value] else [], Closed)
  }

  /** What the caller of a request that is not split sees: the plugin's own answer. */
  function Direct(reply: Reply<EmbeddingResult>): Response {
    match reply
    case Failed(e) => Streamed([], ClosedWith(e))
    case Results(results) => Streamed(results, Closed)
  }

  /** A request that was split: its batches run in order. */
  method InvokeBatches<T(!new)>(
      session: Session, marshal: T -> string, texts: seq<T>, maxRequestBytes: int, world: World<T, EmbeddingResult>,
      batches: seq<Batch<T>>)
    returns (response: Response, sent: seq<seq<T>>)
    requires TilesUpTo(session, marshal, texts, maxRequestBytes, batches, |texts|) && batches != []
    ensures response == Relayed(world, batches)
    ensures EmbeddingsSent(world, batches, |sent|) && sent == Requests(batches[..|sent|])
    ensures forall i :: 0 <= i < |sent| ==> Fits(session, marshal, sent[i], maxRequestBytes)
    ensures TextsOf(sent) <= texts
    ensures response.closing == Closed ==> TextsOf(sent) == texts
    ensures forall plugin :: AnswersItems(world, plugin) ==> response == Streamed([Answer(plugin, texts)], Closed)
  {
    SplitCovers(session, marshal, texts, maxRequestBytes, batches);
    hide PayloadBytes, Answer, Chained, TilesUpTo, EmbeddingsSent, EmbeddingsAfter, AnswersItems, Covers, Fits, TextsOf, Requests;
    var written, closing, outcome, requests := CoordinateTextEmbeddingBatches(world, texts, batches);
    sent := requests;
    SentInOrder(world, batches, texts, |sent|);
    SentFits(session, marshal, texts, maxRequestBytes, world, batches, |sent|);
    response := Streamed(if written.Some? then [written.value] else [], closing);
  }

  lemma SentInOrder<T>(world: World<T, EmbeddingResult>, batches: seq<Batch<T>>, texts: seq<T>, n: nat)
    requires Covers(batches, texts) && EmbeddingsSent(world, batches, n)
    ensures n <= |batches| && TextsOf(Requests(batches[..n])) <= texts
    ensures EmbeddingsAfter(world, batches, |batches|).Ok? && n == |batches| ==> TextsOf(Requests(batches[..n])) == texts
  {
    hide EmbeddingsAfter;
    RequestsCover(batches, texts, n);
    assert batches[..|batches|] == batches && texts[..|texts|] == texts;
  }

  lemma SentFits<T>(session: Session, marshal: T -> string, texts: seq<T>, limit: int, world: World<T, EmbeddingResult>,
                    batches: seq<Batch<T>>, n: nat)
    requires TilesUpTo(session, marshal, texts, limit, batches, |texts|) && EmbeddingsSent(world, batches, n)
    ensures n <= |batches|
    ensures forall i :: 0 <= i < n ==> Fits(session, marshal, Requests(batches[..n])[i], limit)
  {
    hide EmbeddingsAfter, PayloadBytes;
    assert forall k :: 0 <= k < |batches| ==> WellCut(session, marshal, texts, limit, batches[k]);
  }

  /**
   A text embedding request on a serverless runtime. No request above the byte limit is ever sent,
   and for an item-by-item plugin the caller cannot tell whether the request was split.
   */
  method InvokeTextEmbeddingServerlessAware<T(!new)>(
      session: Session, marshal: T -> string, texts: seq<T>, maxRequestBytes: int, world: World<T, EmbeddingResult>)
    returns (response: Response, sent: seq<seq<T>>, ghost plan: seq<Batch<T>>)
    ensures forall i :: 0 <= i < |sent| ==> Fits(session, marshal, sent[i], maxRequestBytes)
    ensures response.Streamed? <==>
      && maxRequestBytes > 0 && Fits(session, marshal, [], maxRequestBytes)
      && forall i :: 0 <= i < |texts| ==> ItemFits(session, marshal, texts, maxRequestBytes, i)
    ensures !response.Streamed? ==> sent == []
    // the plugin's answer is relayed, with the error it failed with: the whole request's, or that of the planned batches
    ensures response.Streamed? && Fits(session, marshal, texts, maxRequestBytes) ==>
      sent == [texts] && response == Direct(world.answer(0, texts))
    ensures response.Streamed? && !Fits(session, marshal, texts, maxRequestBytes) ==>
      && TilesUpTo(session, marshal, texts, maxRequestBytes, plan, |texts|)
      && EmbeddingsSent(world, plan, |sent|) && sent == Requests(plan[..|sent|]) && response == Relayed(world, plan)
    // the requests sent hold the first texts, each once and in order, and all of them unless the request failed
    ensures TextsOf(sent) <= texts
    ensures response.Streamed? && response.closing == Closed ==> TextsOf(sent) == texts
    ensures forall plugin :: response.Streamed? && AnswersItems(world, plugin) ==>
      response == Streamed([Answer(plugin, texts)], Closed)
  {
    hide PayloadBytes, Answer;
    sent, plan := [], [];
    if maxRequestBytes <= 0 {
      return LimitUnavailable, [], [];
    }
    var split := SplitTextRequest(session, marshal, texts, maxRequestBytes);
    if split.Err? {
      return Rejected(split.error), [], [];
    }
    var batches := split.value;
    plan := batches;
    DirectExactlyWhenWholeFits(session, marshal, texts, maxRequestBytes, batches);
    if |batches| <= 1 {
      sent := [texts];
      assert sent[..0] == [] && TextsOf(sent) == texts;
      match world.answer(0, texts) {
        case Failed(e) =>
          response := Streamed([], ClosedWith(e));
        case Results(results) =>
          response := Streamed(results, Closed);
      }
      return;
    }
    response, sent := InvokeBatches(session, marshal, texts, maxRequestBytes, world, batches);
  }
}
