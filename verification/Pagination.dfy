/**
 Listing the plugins of one category page by page (internal/service/manage_plugin.go). The installations are scanned
 in blocks of 256 rows with an early exit; what comes out is one slice of the filtered list. The row order is taken to
 be stable, and looking a row up (its identifier, declaration, category and filters) is a parameter.
 */
module Pagination {
  import opened Wrappers

  const SCAN_PAGE_SIZE := 256

  datatype Installation = Installation(id: string, uniqueIdentifier: string, runtimeType: string)

  datatype Failure = InvalidCategory | DatabaseFailed | BadIdentifier | NoDeclaration

  /** Whether a row is listed: it has the category and passes the filters. */
  type Lookup = Installation -> Result<bool, Failure>

  datatype Listing = Listing(list: seq<Installation>, hasMore: bool)

  function Matching(rows: seq<Installation>, lookup: Lookup): seq<Installation> {
    if rows == [] then []
    else
      var last := rows[|rows| - 1];
      Matching(rows[..|rows| - 1], lookup) + (if lookup(last) == Ok(true) then [last] else [])
  }

  function Min(a: nat, b: nat): nat {
    if a < b then a else b
  }

  function Skipped(page: int, size: nat): nat {
    if page < 1 then 0 else (page - 1) * size
  }

  /** The matches the code sets out to skip; a page below 1 skips none. */
  function ToSkip(page: int, size: nat): int {
    (page - 1) * size
  }

  /** The requested page of a list that is filtered already. */
  function Slice(all: seq<Installation>, skip: nat, size: nat): Listing {
    Listing(all[Min(skip, |all|)..Min(skip + size, |all|)], |all| > skip + size)
  }

  /** A block begins at row k, and reading it fails. */
  predicate BlockFails(fetchFails: nat -> bool, k: nat) {
    k % SCAN_PAGE_SIZE == 0 && fetchFails(k / SCAN_PAGE_SIZE + 1)
  }

  /** What is wrong at row k: the block that begins there cannot be read, or the row cannot be looked up. */
  function Trouble(rows: seq<Installation>, lookup: Lookup, fetchFails: nat -> bool, k: nat): Option<Failure>
    requires k <= |rows|
  {
    if BlockFails(fetchFails, k) then Some(DatabaseFailed)
    else if k < |rows| && lookup(rows[k]).Err? then Some(lookup(rows[k]).error)
    else None
  }

  /** Blocks begin at every 256th row; a block is read before its rows are looked up. */
  lemma TroubleExactly(rows: seq<Installation>, lookup: Lookup, fetchFails: nat -> bool, k: nat)
    requires k <= |rows|
    ensures var unread := k % 256 == 0 && fetchFails(k / 256 + 1);
            && (unread ==> Trouble(rows, lookup, fetchFails, k) == Some(DatabaseFailed))
            && (!unread && k < |rows| && lookup(rows[k]).Err? ==>
                  Trouble(rows, lookup, fetchFails, k) == Some(lookup(rows[k]).error))
            && (Trouble(rows, lookup, fetchFails, k) == None <==> !unread && (k == |rows| || lookup(rows[k]).Ok?))
  {
  }

  /** Row k is where the scan fails: too few matches lie before it, and it is the first row with any trouble. */
  ghost predicate FailsAt(rows: seq<Installation>, lookup: Lookup, fetchFails: nat -> bool, page: int, size: nat,
                          k: nat, e: Failure) {
    && k <= |rows|
    && |Matching(rows[..k], lookup)| <= Skipped(page, size) + size
    && Trouble(rows, lookup, fetchFails, k) == Some(e)
    && forall j :: 0 <= j < k ==> Trouble(rows, lookup, fetchFails, j) == None
  }

  ghost predicate Fails(rows: seq<Installation>, lookup: Lookup, fetchFails: nat -> bool, page: int, size: nat, e: Failure) {
    exists k :: FailsAt(rows, lookup, fetchFails, page, size, k, e)
  }

  // ------------------------------------------------------------- facts about filtering

  lemma MatchingMore(rows: seq<Installation>, lookup: Lookup, k: nat)
    requires k < |rows|
    ensures Matching(rows[..k + 1], lookup)
         == Matching(rows[..k], lookup) + (if lookup(rows[k]) == Ok(true) then [rows[k]] else [])
  {
    assert rows[..k + 1][..k] == rows[..k];
  }

  lemma {:induction false} MatchingPrefix(rows: seq<Installation>, lookup: Lookup, j: nat, k: nat)
    requires j <= k <= |rows|
    ensures Matching(rows[..j], lookup) <= Matching(rows[..k], lookup)
  {
    if j < k {
      MatchingPrefix(rows, lookup, j, k - 1);
      MatchingMore(rows, lookup, k - 1);
    }
  }

  /** Once the matches are complete, or enough of them are there, the outcome is settled. */
  lemma SliceOfPrefix(some: seq<Installation>, all: seq<Installation>, skip: nat, size: nat)
    requires some <= all && (some == all || |some| == skip + size + 1)
    ensures var data := some[Min(skip, |some|)..];
            Slice(all, skip, size) == Listing(if |data| > size then data[..size] else data, |data| > size)
  {
  }

  // ------------------------------------------------------------- the scan

  /** One block of the installations, or the failure of the query. */
  method FetchBlock(rows: seq<Installation>, scanPage: nat, fails: bool) returns (block: Result<seq<Installation>, Failure>)
    requires 1 <= scanPage
    ensures fails ==> block == Err(DatabaseFailed)
    ensures !fails ==> block.Ok? && |block.value| <= SCAN_PAGE_SIZE
    ensures !fails ==>
      var from := (scanPage - 1) * SCAN_PAGE_SIZE;
      block.value == if from <= |rows| then rows[from..Min(from + SCAN_PAGE_SIZE, |rows|)] else []
  {
    var from := (scanPage - 1) * SCAN_PAGE_SIZE;
    if fails {
      return Err(DatabaseFailed);
    } else if |rows| <= from {
      return Ok([]);
    }
    return Ok(rows[from..Min(from + SCAN_PAGE_SIZE, |rows|)]);
  }

  /** What the scan has gathered after k rows. */
  ghost predicate Gathered(rows: seq<Installation>, lookup: Lookup, fetchFails: nat -> bool, page: int, size: nat,
                           k: nat, skippedMatches: int, data: seq<Installation>) {
    && k <= |rows|
    && (forall j :: 0 <= j < k ==> Trouble(rows, lookup, fetchFails, j) == None)
    && var matches := Matching(rows[..k], lookup);
    var skip := Skipped(page, size);
    && data == matches[Min(skip, |matches|)..]
    && (if |matches| < skip then skippedMatches == skip - |matches| else skippedMatches <= 0)
  }

  lemma GatherRow(rows: seq<Installation>, lookup: Lookup, fetchFails: nat -> bool, page: int, size: nat,
                  k: nat, skippedMatches: int, data: seq<Installation>)
    requires k < |rows| && Gathered(rows, lookup, fetchFails, page, size, k, skippedMatches, data)
    requires Trouble(rows, lookup, fetchFails, k) == None
    ensures if lookup(rows[k]) != Ok(true) then
              Gathered(rows, lookup, fetchFails, page, size, k + 1, skippedMatches, data)
            else if skippedMatches > 0 then
              Gathered(rows, lookup, fetchFails, page, size, k + 1, skippedMatches - 1, data)
            else
              Gathered(rows, lookup, fetchFails, page, size, k + 1, skippedMatches, data + [rows[k]])
  {
    MatchingMore(rows, lookup, k);
  }

  /** Gathering less than is wanted, the scan goes on: trouble at the next row is where it fails. */
  lemma GatheredTrouble(rows: seq<Installation>, lookup: Lookup, fetchFails: nat -> bool, page: int, size: nat,
                        k: nat, skippedMatches: int, data: seq<Installation>, e: Failure)
    requires Gathered(rows, lookup, fetchFails, page, size, k, skippedMatches, data) && |data| <= size
    requires Trouble(rows, lookup, fetchFails, k) == Some(e)
    ensures Fails(rows, lookup, fetchFails, page, size, e)
  {
    assert FailsAt(rows, lookup, fetchFails, page, size, k, e);
  }

  lemma BlockTrouble(rows: seq<Installation>, lookup: Lookup, fetchFails: nat -> bool, page: int, size: nat,
                     k: nat, skippedMatches: int, data: seq<Installation>)
    requires Gathered(rows, lookup, fetchFails, page, size, k, skippedMatches, data) && |data| <= size
    requires BlockFails(fetchFails, k) && k <= |rows|
    ensures Fails(rows, lookup, fetchFails, page, size, DatabaseFailed)
  {
    GatheredTrouble(rows, lookup, fetchFails, page, size, k, skippedMatches, data, DatabaseFailed);
  }

  lemma NotFailingAt(rows: seq<Installation>, lookup: Lookup, fetchFails: nat -> bool, page: int, size: nat,
                     k: nat, skippedMatches: int, data: seq<Installation>, j: nat, e: Failure)
    requires Gathered(rows, lookup, fetchFails, page, size, k, skippedMatches, data)
    requires |data| == size + 1 || (k == |rows| && Trouble(rows, lookup, fetchFails, k) == None)
    ensures !FailsAt(rows, lookup, fetchFails, page, size, j, e)
  {
    if j <= |rows| && k <= j {
      MatchingPrefix(rows, lookup, k, j);
    }
  }

  /**
   The scan stopped after k rows, for want of more rows or of more room: what it has is the page, and it met no
   trouble.
   */
  lemma GatheredEnough(rows: seq<Installation>, lookup: Lookup, fetchFails: nat -> bool, page: int, size: nat,
                       k: nat, skippedMatches: int, data: seq<Installation>)
    requires Gathered(rows, lookup, fetchFails, page, size, k, skippedMatches, data)
    requires Complete(rows, lookup, fetchFails, size, k, data)
    ensures Slice(Matching(rows, lookup), Skipped(page, size), size)
         == Listing(if |data| > size then data[..size] else data, |data| > size)
    ensures forall e :: !Fails(rows, lookup, fetchFails, page, size, e)
  {
    assert rows[..|rows|] == rows;
    MatchingPrefix(rows, lookup, k, |rows|);
    SliceOfPrefix(Matching(rows[..k], lookup), Matching(rows, lookup), Skipped(page, size), size);
    forall e, j ensures !FailsAt(rows, lookup, fetchFails, page, size, j, e) {
      NotFailingAt(rows, lookup, fetchFails, page, size, k, skippedMatches, data, j, e);
    }
  }

  /** One block is scanned, from row `from` on, until it or the room in `data` is used up. */
  method ScanBlock(block: seq<Installation>, lookup: Lookup, page: int, size: nat, skippedBefore: int, dataBefore: seq<Installation>,
                   ghost rows: seq<Installation>, ghost fetchFails: nat -> bool, ghost from: nat)
    returns (failure: Option<Failure>, skippedMatches: int, data: seq<Installation>, ghost k: nat)
    requires from + |block| <= |rows| && block == rows[from..from + |block|] && |block| <= SCAN_PAGE_SIZE
    requires from % SCAN_PAGE_SIZE == 0 && !BlockFails(fetchFails, from)
    requires Gathered(rows, lookup, fetchFails, page, size, from, skippedBefore, dataBefore) && |dataBefore| <= size
    ensures failure.Some? ==> Fails(rows, lookup, fetchFails, page, size, failure.value)
    ensures failure.None? ==>
      && |data| <= size + 1 && from <= k <= from + |block|
      && Gathered(rows, lookup, fetchFails, page, size, k, skippedMatches, data)
      && (|data| == size + 1 || k == from + |block|)
  {
    hide Gathered, Fails;
    skippedMatches, data, failure, k := skippedBefore, dataBefore, None, from;
    for i := 0 to |block|
      invariant failure == None && k == from + i
      invariant Gathered(rows, lookup, fetchFails, page, size, k, skippedMatches, data) && |data| <= size
    {
      assert block[i] == rows[from + i];
      var listed := lookup(block[i]);
      if listed.Err? {
        GatheredTrouble(rows, lookup, fetchFails, page, size, k, skippedMatches, data, listed.error);
        return Some(listed.error), skippedMatches, data, k;
      }
      GatherRow(rows, lookup, fetchFails, page, size, k, skippedMatches, data);
      k := k + 1;
      if !listed.value {
        continue;
      }
      if skippedMatches > 0 {
        skippedMatches := skippedMatches - 1;
        continue;
      }
      data := data + [block[i]];
      if |data| == size + 1 {
        break;
      }
    }
  }

  /** The block that begins after k rows was read and is a short one: there is nothing after it. */
  lemma NothingAfter(rows: seq<Installation>, lookup: Lookup, fetchFails: nat -> bool, k: nat)
    requires k <= |rows| && (k == |rows| || lookup(rows[k]).Ok?)
    requires !BlockFails(fetchFails, k)
    ensures Trouble(rows, lookup, fetchFails, k) == None
  {
  }

  lemma BlockStart(fetchFails: nat -> bool, scanPage: nat)
    requires 1 <= scanPage
    ensures var k := (scanPage - 1) * SCAN_PAGE_SIZE;
            k % SCAN_PAGE_SIZE == 0 && BlockFails(fetchFails, k) == fetchFails(scanPage)
  {
    assert (scanPage - 1) * SCAN_PAGE_SIZE / SCAN_PAGE_SIZE == scanPage - 1;
  }

  lemma WithinBlock(fetchFails: nat -> bool, scanPage: nat, n: nat)
    requires 1 <= scanPage && 0 < n < SCAN_PAGE_SIZE
    ensures !BlockFails(fetchFails, (scanPage - 1) * SCAN_PAGE_SIZE + n)
  {
  }

  /** Enough was gathered, or there is nothing left to gather from. */
  ghost predicate Complete(rows: seq<Installation>, lookup: Lookup, fetchFails: nat -> bool, size: nat, k: nat,
                           data: seq<Installation>) {
    |data| == size + 1 || (k == |rows| && |data| <= size && Trouble(rows, lookup, fetchFails, k) == None)
  }

  /** One turn of the scanning loop: a block is read and scanned; an empty or a short one is the last. */
  method ScanNext(rows: seq<Installation>, lookup: Lookup, fetchFails: nat -> bool, page: int, size: nat,
                  scanPage: nat, skippedBefore: int, dataBefore: seq<Installation>)
    returns (failure: Option<Failure>, last: bool, skippedMatches: int, data: seq<Installation>, ghost k: nat)
    requires 1 <= scanPage && |dataBefore| <= size && (scanPage - 1) * SCAN_PAGE_SIZE <= |rows|
    requires Gathered(rows, lookup, fetchFails, page, size, (scanPage - 1) * SCAN_PAGE_SIZE, skippedBefore, dataBefore)
    ensures failure.Some? ==> Fails(rows, lookup, fetchFails, page, size, failure.value)
    ensures failure.None? ==> k <= |rows| && |data| <= size + 1
    ensures failure.None? ==> Gathered(rows, lookup, fetchFails, page, size, k, skippedMatches, data)
    ensures failure.None? && (last || |data| == size + 1) ==> Complete(rows, lookup, fetchFails, size, k, data)
    ensures failure.None? && !last && |data| <= size ==> k == scanPage * SCAN_PAGE_SIZE
  {
    k := (scanPage - 1) * SCAN_PAGE_SIZE;
    var block := FetchBlock(rows, scanPage, fetchFails(scanPage));
    BlockStart(fetchFails, scanPage);
    hide Gathered, Fails, Trouble, Skipped, Matching, BlockFails;
    skippedMatches, data := skippedBefore, dataBefore;
    if block.Err? {
      BlockTrouble(rows, lookup, fetchFails, page, size, k, skippedMatches, data);
      return Some(block.error), true, skippedMatches, data, k;
    }
    if |block.value| == 0 {
      NothingAfter(rows, lookup, fetchFails, k);
      return None, true, skippedMatches, data, k;
    }
    failure, skippedMatches, data, k := ScanBlock(block.value, lookup, page, size, skippedMatches, data, rows, fetchFails, k);
    last := |block.value| < SCAN_PAGE_SIZE;
    if last && failure.None? && |data| <= size {
      WithinBlock(fetchFails, scanPage, |block.value|);
      NothingAfter(rows, lookup, fetchFails, k);
    }
  }

  /** The scanning loop. It ends for every number of rows, multiples of the block size among them. */
  method Scan(rows: seq<Installation>, lookup: Lookup, fetchFails: nat -> bool, page: int, size: nat)
    returns (failure: Option<Failure>, data: seq<Installation>, ghost skipped: int, ghost k: nat)
    ensures failure.Some? ==> Fails(rows, lookup, fetchFails, page, size, failure.value)
    ensures failure.None? ==> Gathered(rows, lookup, fetchFails, page, size, k, skipped, data)
    ensures failure.None? ==> Complete(rows, lookup, fetchFails, size, k, data)
  {
    var skippedMatches := ToSkip(page, size);
    var targetMatches := size + 1;
    var scanPage, last := 1, false;
    data, failure, k := [], None, 0;
    StartGathering(rows, lookup, fetchFails, page, size);
    hide *;
    while |data| < targetMatches && !last
      invariant 1 <= scanPage && failure == None && |data| <= targetMatches && k <= |rows|
      invariant Gathered(rows, lookup, fetchFails, page, size, k, skippedMatches, data)
      invariant last || |data| == targetMatches ==> Complete(rows, lookup, fetchFails, size, k, data)
      invariant !last && |data| < targetMatches ==> k == (scanPage - 1) * SCAN_PAGE_SIZE
      decreases !last, |data| < targetMatches, |rows| - k
    {
      failure, last, skippedMatches, data, k :=
        ScanNext(rows, lookup, fetchFails, page, size, scanPage, skippedMatches, data);
      if failure.Some? {
        return failure, data, skippedMatches, k;
      }
      scanPage := scanPage + 1;
    }
    skipped := skippedMatches;
  }

  /**
   The listing is the requested slice of the filtered rows, has_more says whether rows match beyond it, and the
   listing fails exactly when the scan meets trouble before it has seen one match more than it lists.
   */
  method ListPluginsByCategory(validCategory: bool, rows: seq<Installation>, lookup: Lookup, fetchFails: nat -> bool,
                               page: int, size: nat) returns (response: Result<Listing, Failure>)
    ensures !validCategory ==> response == Err(InvalidCategory)
    ensures validCategory && response.Ok? ==>
      && response.value == Slice(Matching(rows, lookup), Skipped(page, size), size)
      && forall e :: !Fails(rows, lookup, fetchFails, page, size, e)
    ensures validCategory && response.Err? ==> Fails(rows, lookup, fetchFails, page, size, response.error)
  {
    if !validCategory {
      return Err(InvalidCategory);
    }
    hide *;
    var failure, data;
    ghost var skippedMatches, k;
    failure, data, skippedMatches, k := Scan(rows, lookup, fetchFails, page, size);
    if failure.Some? {
      return Err(failure.value);
    }
    GatheredEnough(rows, lookup, fetchFails, page, size, k, skippedMatches, data);
    var hasMore := |data| > size;
    if hasMore {
      data := data[..size];
    }
    return Ok(Listing(data, hasMore));
  }

  lemma StartGathering(rows: seq<Installation>, lookup: Lookup, fetchFails: nat -> bool, page: int, size: nat)
    ensures Gathered(rows, lookup, fetchFails, page, size, 0, ToSkip(page, size), [])
  {
    if page < 1 {
      assert (page - 1) * size <= 0;
    }
  }

  // ------------------------------------------------------------- reading page after page

  /** The lists of pages 1 to n put together. */
  function Pages(all: seq<Installation>, size: nat, n: nat): seq<Installation> {
    if n == 0 then [] else Pages(all, size, n - 1) + Slice(all, Skipped(n, size), size).list
  }

  /**
   A caller who reads pages until one has no more has read every matching plugin once, in order; has_more told
   it to go on exactly till then.
   */
  lemma {:induction false} PagesCoverTheList(all: seq<Installation>, size: nat, n: nat)
    ensures Pages(all, size, n) == all[..Min(n * size, |all|)]
    ensures n >= 1 ==> (!Slice(all, Skipped(n, size), size).hasMore <==> Pages(all, size, n) == all)
  {
    if n > 0 {
      PagesCoverTheList(all, size, n - 1);
      assert n * size == Skipped(n, size) + size;
    }
  }
}
