/**
 The accounted and cached key-value store of one plugin of one tenant (internal/core/persistence/persistence.go and
 wrapper.go). Object storage, the size row and the cache are maps; each call says which of its storage, database
 and cache calls fail, and a failing call changes nothing. Cleaning a path is a parameter; cache entries are kept
 under the key as given, objects under the cleaned one.
 */
module PersistenceStore {
  import opened MapTotals
  import opened Wrappers

  type Key = string
  type Bytes = seq<Byte>

  const MAX_KEY_LENGTH := 256

  datatype State = State(objects: map<Key, Bytes>, size: Option<int>, cache: map<Key, Bytes>)

  datatype Error = InvalidKey | KeyTooLong | StorageFailed | QuotaExceeded | DatabaseFailed | CacheFailed

  /** The store's settings: the quota of a plugin, and the cleaning of paths. */
  datatype Config = Config(maxStorageSize: nat, clean: Key -> Key)

  predicate Contains(s: string, sub: string) {
    |sub| <= |s| && (sub <= s || Contains(s[1..], sub))
  }

  predicate Traverses(config: Config, key: Key) {
    var cleaned := config.clean(key);
    Contains(cleaned, "..") || Contains(cleaned, "//") || Contains(cleaned, "\\")
  }

  predicate StandsAt(sub: string, s: string, i: nat) {
    i + |sub| <= |s| && s[i..i + |sub|] == sub
  }

  ghost predicate Within(sub: string, s: string) {
    exists i: nat :: StandsAt(sub, s, i)
  }

  lemma StandsLater(sub: string, s: string, i: nat)
    requires s != ""
    ensures StandsAt(sub, s, i + 1) <==> StandsAt(sub, s[1..], i)
  {
    if i + 1 + |sub| <= |s| {
      assert s[1..][i..i + |sub|] == s[i + 1..i + 1 + |sub|];
    }
  }

  lemma WithinRest(sub: string, s: string)
    requires s != "" && !StandsAt(sub, s, 0)
    ensures Within(sub, s) <==> Within(sub, s[1..])
  {
    if Within(sub, s) {
      var i: nat :| StandsAt(sub, s, i);
      StandsLater(sub, s, i - 1);
    }
    if Within(sub, s[1..]) {
      var i: nat :| StandsAt(sub, s[1..], i);
      StandsLater(sub, s, i);
    }
  }

  lemma {:induction false} ContainsExactlyWhen(s: string, sub: string)
    ensures Contains(s, sub) <==> Within(sub, s)
  {
    assert StandsAt(sub, s, 0) <==> |sub| <= |s| && sub <= s;
    if |sub| <= |s| && !StandsAt(sub, s, 0) {
      ContainsExactlyWhen(s[1..], sub);
      WithinRest(sub, s);
      hide StandsAt, Within;
    }
  }

  /** A key is refused exactly when two dots, two slashes or a backslash are left after cleaning it. */
  lemma TraversesExactlyWhen(config: Config, key: Key)
    ensures Traverses(config, key) <==>
      var path := config.clean(key); Within("..", path) || Within("//", path) || Within("\\", path)
  {
    ContainsExactlyWhen(config.clean(key), "..");
    ContainsExactlyWhen(config.clean(key), "//");
    ContainsExactlyWhen(config.clean(key), "\\");
  }

  function SizeOf(row: Option<int>): int {
    if row.Some? then row.value else 0
  }

  // ------------------------------------------------------------- what a Save does

  /** Which calls of one Save fail; a failing size probe (Exists or StateSize) goes unnoticed. */
  datatype SaveFaults = SaveFaults(exists_: bool, stateSize: bool, save: bool, lookup: bool, update: bool, cacheDel: bool)

  datatype SaveRequest = SaveRequest(maxSize: int, key: Key, data: Bytes, faults: SaveFaults)

  function BytesAt(s: State, config: Config, key: Key): nat {
    if config.clean(key) in s.objects then |s.objects[config.clean(key)]| else 0
  }

  function Limit(config: Config, r: SaveRequest): int {
    if r.maxSize == -1 || r.maxSize > config.maxStorageSize then config.maxStorageSize else r.maxSize
  }

  /** The growth the row is charged with: all of the new bytes when the old size could not be had. */
  function Charged(s: State, config: Config, r: SaveRequest): int {
    |r.data| - (if r.faults.exists_ || r.faults.stateSize then 0 else BytesAt(s, config, r.key))
  }

  function SaveError(s: State, config: Config, r: SaveRequest): Option<Error> {
    if Traverses(config, r.key) then Some(InvalidKey)
    else if |r.key| > MAX_KEY_LENGTH then Some(KeyTooLong)
    else if r.faults.save then Some(StorageFailed)
    else if Charged(s, config, r) + (if r.faults.lookup then 0 else SizeOf(s.size)) > Limit(config, r) then Some(QuotaExceeded)
    else if r.faults.lookup || r.faults.update then Some(DatabaseFailed)
    else if r.faults.cacheDel then Some(CacheFailed)
    else None
  }

  /**
   Why a Save fails. It is refused for the quota exactly when the total it leads to, as far as its calls can tell, is above
   the maximum of the plugin, or above its own one if that is not -1.
   */
  lemma SaveFailsFor(s: State, config: Config, r: SaveRequest)
    ensures var e, path := SaveError(s, config, r), config.clean(r.key);
            var replaced := if path in s.objects && !r.faults.exists_ && !r.faults.stateSize then |s.objects[path]| else 0;
            var counted := if s.size.Some? && !r.faults.lookup then s.size.value else 0;
            var total := counted + |r.data| - replaced;
            var over := total > config.maxStorageSize || (r.maxSize != -1 && total > r.maxSize);
            && (e == Some(InvalidKey) <==> Traverses(config, r.key))
            && (e == Some(KeyTooLong) <==> !Traverses(config, r.key) && |r.key| > 256)
            && (e == Some(StorageFailed) <==> !Traverses(config, r.key) && |r.key| <= 256 && r.faults.save)
            && var written := !Traverses(config, r.key) && |r.key| <= 256 && !r.faults.save;
            && (e == Some(QuotaExceeded) <==> written && over)
            && (e == Some(DatabaseFailed) <==> written && !over && (r.faults.lookup || r.faults.update))
            && (e == Some(CacheFailed) <==> written && !over && !r.faults.lookup && !r.faults.update && r.faults.cacheDel)
            && (e == None <==> written && !over && !r.faults.lookup && !r.faults.update && !r.faults.cacheDel)
  {
  }

  /** The object is written before the quota is looked at, so these errors come too late to keep it. */
  predicate Overwrites(e: Option<Error>) {
    e == None || e == Some(QuotaExceeded) || e == Some(DatabaseFailed) || e == Some(CacheFailed)
  }

  function AfterSave(s: State, config: Config, r: SaveRequest): State {
    var e := SaveError(s, config, r);
    State(
      if Overwrites(e) then s.objects[config.clean(r.key) := r.data] else s.objects,
      if e == None || e == Some(CacheFailed) then Some(SizeOf(s.size) + Charged(s, config, r)) else s.size,
      if e == None then s.cache - {r.key} else s.cache)
  }

  // ------------------------------------------------------------- what the other calls do

  datatype DeleteFaults = DeleteFaults(cacheDel: bool, stateSize: bool, delete: bool, update: bool)

  function DeleteError(s: State, config: Config, key: Key, faults: DeleteFaults): Option<Error> {
    if Traverses(config, key) then Some(InvalidKey)
    else if faults.cacheDel then Some(CacheFailed)
    else if config.clean(key) !in s.objects || faults.stateSize || faults.delete then Some(StorageFailed)
    else if faults.update then Some(DatabaseFailed)
    else None
  }

  function AfterDelete(s: State, config: Config, key: Key, faults: DeleteFaults): State {
    var e := DeleteError(s, config, key, faults);
    var removed := e == None || e == Some(DatabaseFailed);
    State(
      if removed then s.objects - {config.clean(key)} else s.objects,
      if e == None && s.size.Some? then Some(s.size.value - BytesAt(s, config, key)) else s.size,
      if e == Some(InvalidKey) || e == Some(CacheFailed) then s.cache else s.cache - {key})
  }

  datatype LoadFaults = LoadFaults(cacheGet: bool, load: bool, cacheStore: bool)

  function LoadResult(s: State, config: Config, key: Key, faults: LoadFaults): Result<Bytes, Error> {
    if Traverses(config, key) then Err(InvalidKey)
    else if faults.cacheGet then Err(CacheFailed)
    else if key in s.cache then Ok(s.cache[key])
    else if config.clean(key) in s.objects && !faults.load then Ok(s.objects[config.clean(key)])
    else Err(StorageFailed)
  }

  function AfterLoad(s: State, config: Config, key: Key, faults: LoadFaults): State {
    var r := LoadResult(s, config, key, faults);
    if r.Ok? && key !in s.cache && !faults.cacheStore then s.(cache := s.cache[key := r.value]) else s
  }

  function ExistResult(s: State, config: Config, key: Key, cacheFails: bool, storageFails: bool): Result<nat, Error> {
    if Traverses(config, key) then Err(InvalidKey)
    else if cacheFails then Err(CacheFailed)
    else if key in s.cache then Ok(1)
    else if storageFails then Err(StorageFailed)
    else Ok(if config.clean(key) in s.objects then 1 else 0)
  }

  /** Why a Delete fails: the first of its calls that fails, or an object that is not there. */
  lemma DeleteFailsFor(s: State, config: Config, key: Key, faults: DeleteFaults)
    ensures var e, there := DeleteError(s, config, key, faults), config.clean(key) in s.objects;
            && (e == Some(InvalidKey) <==> Traverses(config, key))
            && (e == Some(CacheFailed) <==> !Traverses(config, key) && faults.cacheDel)
            && (e == Some(StorageFailed) <==>
                  !Traverses(config, key) && !faults.cacheDel && (!there || faults.stateSize || faults.delete))
            && (e == Some(DatabaseFailed) <==>
                  && !Traverses(config, key) && !faults.cacheDel && there && !faults.stateSize && !faults.delete
                  && faults.update)
            && (e == None <==>
                  && !Traverses(config, key) && !faults.cacheDel && there && !faults.stateSize && !faults.delete
                  && !faults.update)
  {
  }

  /** A Delete that is refused for its key, or by the cache, changes nothing. */
  lemma RefusedDeleteChangesNothing(s: State, config: Config, key: Key, faults: DeleteFaults)
    requires Traverses(config, key) || faults.cacheDel
    ensures AfterDelete(s, config, key, faults) == s
  {
  }

  /** A Delete that gets past the key leaves no cache entry under it, unless the cache itself fails. */
  lemma DeleteUncaches(s: State, config: Config, key: Key, faults: DeleteFaults)
    requires !Traverses(config, key) && !faults.cacheDel
    ensures AfterDelete(s, config, key, faults).cache == s.cache - {key}
  {
  }

  /** What a Load returns, and that it leaves in the cache what it read from the storage. */
  lemma LoadsExactly(s: State, config: Config, key: Key, faults: LoadFaults)
    ensures var r, path, t := LoadResult(s, config, key, faults), config.clean(key), AfterLoad(s, config, key, faults);
            && (r == Err(InvalidKey) <==> Traverses(config, key))
            && (r == Err(CacheFailed) <==> !Traverses(config, key) && faults.cacheGet)
            && (r == Err(StorageFailed) <==>
                  && !Traverses(config, key) && !faults.cacheGet
                  && key !in s.cache && (path !in s.objects || faults.load))
            && (r.Ok? ==> r.value == if key in s.cache then s.cache[key] else if path in s.objects then s.objects[path] else [])
            && (r.Ok? && !faults.cacheStore ==> t.cache == s.cache[key := r.value])
            && (r.Err? || faults.cacheStore ==> t.cache == s.cache)
            && t.objects == s.objects && t.size == s.size
  {
  }

  /** Exist finds what is cached or stored. */
  lemma FindsExactly(s: State, config: Config, key: Key, cacheFails: bool, storageFails: bool)
    ensures var r := ExistResult(s, config, key, cacheFails, storageFails);
            && (r == Err(InvalidKey) <==> Traverses(config, key))
            && (r == Err(CacheFailed) <==> !Traverses(config, key) && cacheFails)
            && (r == Err(StorageFailed) <==> !Traverses(config, key) && !cacheFails && key !in s.cache && storageFails)
            && (r.Ok? ==> r.value <= 1 && (r.value == 1 <==> key in s.cache || config.clean(key) in s.objects))
  {
  }

  // ------------------------------------------------------------- the store itself

  class Persistence {
    const config: Config
    var objects: map<Key, Bytes>
    var size: Option<int>
    var cache: map<Key, Bytes>

    ghost function View(): State
      reads this
    {
      State(objects, size, cache)
    }

    constructor (config: Config)
      ensures this.config == config && View() == State(map[], None, map[])
    {
      this.config := config;
      objects, size, cache := map[], None, map[];
    }

    method Save(r: SaveRequest) returns (error: Option<Error>)
      modifies this
      ensures error == SaveError(old(View()), config, r)
      ensures View() == AfterSave(old(View()), config, r)
    {
      if Traverses(config, r.key) {
        return Some(InvalidKey);
      }
      if |r.key| > MAX_KEY_LENGTH {
        return Some(KeyTooLong);
      }
      var maxSize := r.maxSize;
      if maxSize == -1 {
        maxSize := config.maxStorageSize;
      }
      var path := config.clean(r.key);
      var oldSize := 0;
      if !r.faults.exists_ && path in objects {
        if !r.faults.stateSize {
          oldSize := |objects[path]|;
        }
      }
      if r.faults.save {
        return Some(StorageFailed);
      }
      objects := objects[path := r.data];
      var sizeDiff := |r.data| - oldSize;
      if r.faults.lookup || size.None? {
        if sizeDiff > config.maxStorageSize || sizeDiff > maxSize {
          return Some(QuotaExceeded);
        }
        if r.faults.lookup || r.faults.update {
          return Some(DatabaseFailed);
        }
        size := Some(sizeDiff);
      } else {
        if sizeDiff + size.value > maxSize || sizeDiff + size.value > config.maxStorageSize {
          return Some(QuotaExceeded);
        }
        if r.faults.update {
          return Some(DatabaseFailed);
        }
        size := Some(size.value + sizeDiff);
      }
      if r.faults.cacheDel {
        return Some(CacheFailed);
      }
      cache := cache - {r.key};
      return None;
    }

    method Load(key: Key, faults: LoadFaults) returns (data: Result<Bytes, Error>)
      modifies this`cache
      ensures data == LoadResult(old(View()), config, key, faults)
      ensures View() == AfterLoad(old(View()), config, key, faults)
    {
      if Traverses(config, key) {
        return Err(InvalidKey);
      }
      if faults.cacheGet {
        return Err(CacheFailed);
      }
      if key in cache {
        return Ok(cache[key]);
      }
      var path := config.clean(key);
      if faults.load || path !in objects {
        return Err(StorageFailed);
      }
      if !faults.cacheStore {
        cache := cache[key := objects[path]];
      }
      return Ok(objects[path]);
    }

    method Delete(key: Key, faults: DeleteFaults) returns (deleted: Result<nat, Error>)
      modifies this
      ensures deleted == match DeleteError(old(View()), config, key, faults)
                         case Some(e) => Err(e)
                         case None => Ok(if key in old(cache) then 1 else 0)
      ensures View() == AfterDelete(old(View()), config, key, faults)
    {
      if Traverses(config, key) {
        return Err(InvalidKey);
      }
      if faults.cacheDel {
        return Err(CacheFailed);
      }
      var deletedNum := if key in cache then 1 else 0;
      cache := cache - {key};
      var path := config.clean(key);
      if faults.stateSize || path !in objects {
        return Err(StorageFailed);
      }
      var removedSize := |objects[path]|;
      if faults.delete {
        return Err(StorageFailed);
      }
      objects := objects - {path};
      if faults.update {
        return Err(DatabaseFailed);
      }
      if size.Some? {
        size := Some(size.value - removedSize);
      }
      return Ok(deletedNum);
    }

    method Exist(key: Key, cacheFails: bool, storageFails: bool) returns (found: Result<nat, Error>)
      ensures found == ExistResult(View(), config, key, cacheFails, storageFails)
    {
      if Traverses(config, key) {
        return Err(InvalidKey);
      }
      if cacheFails {
        return Err(CacheFailed);
      }
      if key in cache {
        return Ok(1);
      }
      if storageFails {
        return Err(StorageFailed);
      }
      return Ok(if config.clean(key) in objects then 1 else 0);
    }
  }

  // ------------------------------------------------------------- accounting

  /** The size row is the sum of the object sizes and within the quota. */
  ghost predicate Accounted(s: State, config: Config) {
    SizeOf(s.size) == Total(s.objects) <= config.maxStorageSize
  }

  /** The Save gets as far as writing its object. */
  predicate Written(config: Config, r: SaveRequest) {
    !Traverses(config, r.key) && |r.key| <= MAX_KEY_LENGTH && !r.faults.save
  }

  /** The charge would exceed the quota; a row that cannot be read counts as none. */
  predicate OverQuota(s: State, config: Config, r: SaveRequest) {
    Charged(s, config, r) + (if r.faults.lookup then 0 else SizeOf(s.size)) > Limit(config, r)
  }

  /**
   A Save is miscounted when it is written and then refused for the quota or by the database, though it changed the
   size of its object; or when it is charged without knowing the size of the bytes it replaced.
   */
  predicate Miscounts(s: State, config: Config, r: SaveRequest) {
    && Written(config, r)
    && if OverQuota(s, config, r) || r.faults.lookup || r.faults.update then |r.data| != BytesAt(s, config, r.key)
       else (r.faults.exists_ || r.faults.stateSize) && BytesAt(s, config, r.key) > 0
  }

  /** The accounts survive a Save exactly when it is not miscounted. */
  lemma SaveIsAccountedExactlyWhen(s: State, config: Config, r: SaveRequest)
    requires Accounted(s, config)
    ensures Accounted(AfterSave(s, config, r), config) <==> !Miscounts(s, config, r)
  {
    TotalUpdate(s.objects, config.clean(r.key), r.data);
  }

  const NO_SAVE_FAULTS := SaveFaults(false, false, false, false, false, false)

  /** A Save over the quota is refused, and yet its object is there and no row counts it. */
  lemma RefusedSaveStaysStored(config: Config, key: Key, data: Bytes)
    requires !Traverses(config, key) && |key| <= MAX_KEY_LENGTH && |data| > config.maxStorageSize
    ensures var r := SaveRequest(-1, key, data, NO_SAVE_FAULTS);
            var t := AfterSave(State(map[], None, map[]), config, r);
            && SaveError(State(map[], None, map[]), config, r) == Some(QuotaExceeded)
            && t == State(map[config.clean(key) := data], None, map[])
            && Accounted(State(map[], None, map[]), config) && !Accounted(t, config)
            && LoadResult(t, config, key, LoadFaults(false, false, false)) == Ok(data)
  {
    TotalUpdate<Key, Byte>(map[], config.clean(key), data);
    assert map[][config.clean(key) := data] == map[config.clean(key) := data];
  }

  /** The Delete gets as far as removing its object. */
  predicate Removed(s: State, config: Config, key: Key, faults: DeleteFaults) {
    && !Traverses(config, key) && !faults.cacheDel && config.clean(key) in s.objects
    && !faults.stateSize && !faults.delete
  }

  /**
   The accounts survive a Delete exactly when it does not remove a non-empty object and then fail to update the
   row.
   */
  lemma DeleteIsAccountedExactlyWhen(s: State, config: Config, key: Key, faults: DeleteFaults)
    requires Accounted(s, config)
    ensures Accounted(AfterDelete(s, config, key, faults), config) <==>
      !(Removed(s, config, key, faults) && faults.update && BytesAt(s, config, key) > 0)
  {
    TotalRemove(s.objects, config.clean(key));
    if config.clean(key) in s.objects {
      TotalWithout(s.objects, config.clean(key));
    }
  }

  // ------------------------------------------------------------- the cache

  /** What the cache holds is what the storage holds. */
  ghost predicate Coherent(s: State, config: Config) {
    forall k :: k in s.cache ==> config.clean(k) in s.objects && s.objects[config.clean(k)] == s.cache[k]
  }

  /** Another spelling of the key is cached. */
  ghost predicate CachedOtherwise(s: State, config: Config, key: Key) {
    exists k :: k in s.cache && k != key && config.clean(k) == config.clean(key)
  }

  /**
   The cache stays right over a Save exactly when the Save is not written, or writes the bytes that are there, or
   the object is cached at most under the key of the Save and nothing goes wrong after writing.
   */
  lemma SaveIsCoherentExactlyWhen(s: State, config: Config, r: SaveRequest)
    requires Coherent(s, config)
    ensures Coherent(AfterSave(s, config, r), config) <==>
      || !Written(config, r)
      || (config.clean(r.key) in s.objects && s.objects[config.clean(r.key)] == r.data)
      || (!CachedOtherwise(s, config, r.key)
          && (r.key in s.cache ==>
                !OverQuota(s, config, r) && !r.faults.lookup && !r.faults.update && !r.faults.cacheDel))
  {
    var t, path := AfterSave(s, config, r), config.clean(r.key);
    if Written(config, r) && !(path in s.objects && s.objects[path] == r.data) {
      if CachedOtherwise(s, config, r.key) {
        var k :| k in s.cache && k != r.key && config.clean(k) == path;
        assert k in t.cache && t.cache[k] == s.objects[path] && t.objects[path] == r.data;
      } else if r.key in s.cache && (OverQuota(s, config, r) || r.faults.lookup || r.faults.update || r.faults.cacheDel) {
        assert r.key in t.cache && t.cache[r.key] == s.objects[path] && t.objects[path] == r.data;
      }
    }
  }

  /** The cache stays right over a Delete exactly when the object is not removed or is cached at most under this key. */
  lemma DeleteIsCoherentExactlyWhen(s: State, config: Config, key: Key, faults: DeleteFaults)
    requires Coherent(s, config)
    ensures Coherent(AfterDelete(s, config, key, faults), config) <==>
      !Removed(s, config, key, faults) || !CachedOtherwise(s, config, key)
  {
    var t := AfterDelete(s, config, key, faults);
    if Removed(s, config, key, faults) && CachedOtherwise(s, config, key) {
      var k :| k in s.cache && k != key && config.clean(k) == config.clean(key);
      assert k in t.cache && config.clean(k) !in t.objects;
    }
  }

  // ------------------------------------------------------------- runs

  datatype Step =
    | Save(request: SaveRequest)
    | Delete(key: Key, deleteFaults: DeleteFaults)
    | Load(key: Key, loadFaults: LoadFaults)
    | Expire(key: Key)

  function After(s: State, config: Config, step: Step): State {
    match step
    case Save(r) => AfterSave(s, config, r)
    case Delete(key, faults) => AfterDelete(s, config, key, faults)
    case Load(key, faults) => AfterLoad(s, config, key, faults)
    case Expire(key) => s.(cache := s.cache - {key})
  }

  const EMPTY := State(map[], None, map[])

  function Run(config: Config, steps: seq<Step>): State {
    if steps == [] then EMPTY
    else After(Run(config, steps[..|steps| - 1]), config, steps[|steps| - 1])
  }

  /** Save and Delete succeed; any other call may fail. */
  predicate Smooth(s: State, config: Config, step: Step) {
    match step
    case Save(r) => SaveError(s, config, r) == None
    case Delete(key, faults) => DeleteError(s, config, key, faults) == None
    case _ => true
  }

  predicate SmoothRun(config: Config, steps: seq<Step>) {
    steps == [] || (SmoothRun(config, steps[..|steps| - 1])
                    && Smooth(Run(config, steps[..|steps| - 1]), config, steps[|steps| - 1]))
  }

  function KeyOf(step: Step): Key {
    if step.Save? then step.request.key else step.key
  }

  /** The run uses no other keys than these. */
  ghost predicate Over(steps: seq<Step>, keys: set<Key>) {
    forall k :: 0 <= k < |steps| ==> KeyOf(steps[k]) in keys
  }

  /** No Save of the run had a size probe fail. */
  ghost predicate Probed(steps: seq<Step>) {
    forall k :: 0 <= k < |steps| && steps[k].Save? ==> !steps[k].request.faults.exists_ && !steps[k].request.faults.stateSize
  }

  /** A plain map from cleaned keys under the same calls. */
  function Contents(config: Config, steps: seq<Step>): map<Key, Bytes> {
    if steps == [] then map[]
    else
      var before := Contents(config, steps[..|steps| - 1]);
      match steps[|steps| - 1]
      case Save(r) => before[config.clean(r.key) := r.data]
      case Delete(key, _) => before - {config.clean(key)}
      case _ => before
  }

  /** Over every smooth run the storage is the plain map, and with the probes the size row is its total and within the quota. */
  lemma {:induction false} StoreIsAMap(config: Config, steps: seq<Step>)
    requires SmoothRun(config, steps)
    ensures Run(config, steps).objects == Contents(config, steps)
    ensures Probed(steps) ==> Accounted(Run(config, steps), config)
  {
    if steps != [] {
      var before, last := steps[..|steps| - 1], steps[|steps| - 1];
      StoreIsAMap(config, before);
      var s := Run(config, before);
      if Probed(steps) {
        assert Probed(before);
        match last
        case Save(r) => SaveIsAccountedExactlyWhen(s, config, r);
        case Delete(key, faults) => DeleteIsAccountedExactlyWhen(s, config, key, faults);
        case _ =>
      }
    }
  }

  // ------------------------------------------------------------- reading what was saved last

  /** A key that objects can be saved under. */
  predicate Savable(config: Config, key: Key) {
    !Traverses(config, key) && |key| <= MAX_KEY_LENGTH
  }

  /** No key that objects can be saved under has another spelling among the keys. */
  ghost predicate OneSpelling(config: Config, keys: set<Key>) {
    forall a, b :: a in keys && b in keys && Savable(config, a) && config.clean(a) == config.clean(b) ==> a == b
  }

  /** What runs over keys with one spelling keep. */
  ghost predicate Sound(s: State, config: Config, keys: set<Key>) {
    && Coherent(s, config) && s.cache.Keys <= keys
    && forall path :: path in s.objects ==> SavedUnder(config, keys, path)
  }

  ghost predicate SavedUnder(config: Config, keys: set<Key>, path: Key) {
    exists a :: a in keys && Savable(config, a) && config.clean(a) == path
  }

  lemma NotCachedOtherwise(s: State, config: Config, keys: set<Key>, key: Key)
    requires OneSpelling(config, keys) && Sound(s, config, keys) && key in keys
    requires Savable(config, key) || config.clean(key) in s.objects
    ensures !CachedOtherwise(s, config, key)
  {
  }

  lemma SmoothKeeps(s: State, config: Config, keys: set<Key>, step: Step)
    requires OneSpelling(config, keys) && Sound(s, config, keys) && Smooth(s, config, step) && KeyOf(step) in keys
    ensures Sound(After(s, config, step), config, keys)
  {
    var t := After(s, config, step);
    match step
    case Save(r) =>
      NotCachedOtherwise(s, config, keys, r.key);
      SaveIsCoherentExactlyWhen(s, config, r);
      assert SavedUnder(config, keys, config.clean(r.key));
    case Delete(key, faults) =>
      NotCachedOtherwise(s, config, keys, key);
      DeleteIsCoherentExactlyWhen(s, config, key, faults);
    case _ =>
  }

  lemma {:induction false} SmoothRunIsSound(config: Config, keys: set<Key>, steps: seq<Step>)
    requires OneSpelling(config, keys) && SmoothRun(config, steps) && Over(steps, keys)
    ensures Sound(Run(config, steps), config, keys)
  {
    if steps != [] {
      hide Sound, OneSpelling, Smooth, After;
      assert Over(steps[..|steps| - 1], keys);
      SmoothRunIsSound(config, keys, steps[..|steps| - 1]);
      SmoothKeeps(Run(config, steps[..|steps| - 1]), config, keys, steps[|steps| - 1]);
    } else {
      assert Sound(EMPTY, config, keys);
    }
  }

  /** A Load that does not fail returns the bytes saved last. */
  ghost predicate ReadsLast(config: Config, steps: seq<Step>, key: Key, faults: LoadFaults) {
    var data := LoadResult(Run(config, steps), config, key, faults);
    data.Ok? ==> config.clean(key) in Contents(config, steps) && data.value == Contents(config, steps)[config.clean(key)]
  }

  ghost predicate AlwaysReadsLast(config: Config, keys: set<Key>) {
    forall steps, key, faults ::
      SmoothRun(config, steps) && Over(steps, keys) && key in keys ==> ReadsLast(config, steps, key, faults)
  }

  /** Save under one spelling, load under another, delete under the first: the deleted bytes are still read, and said to exist. */
  lemma OtherSpellingReadsDeletedBytes(config: Config, a: Key, b: Key)
    requires a != b && config.clean(a) == config.clean(b) && Savable(config, a)
    ensures var steps := [Save(SaveRequest(-1, a, [], NO_SAVE_FAULTS)), Load(b, LoadFaults(false, false, false)),
                          Delete(a, DeleteFaults(false, false, false, false))];
            && SmoothRun(config, steps) && Contents(config, steps) == map[]
            && LoadResult(Run(config, steps), config, b, LoadFaults(false, false, false)) == Ok([])
            && ExistResult(Run(config, steps), config, b, false, false) == Ok(1)
  {
    var steps := [Save(SaveRequest(-1, a, [], NO_SAVE_FAULTS)), Load(b, LoadFaults(false, false, false)),
                  Delete(a, DeleteFaults(false, false, false, false))];
    var path := config.clean(a);
    var s1 := State(map[path := []], Some(0), map[]);
    var s2 := State(map[path := []], Some(0), map[b := []]);
    assert steps[..2][..1] == steps[..1] && steps[..1][..0] == [];
    assert After(EMPTY, config, steps[0]) == s1;
    assert Run(config, steps[..1]) == s1 && SmoothRun(config, steps[..1]);
    assert After(s1, config, steps[1]) == s2;
    assert Run(config, steps[..2]) == s2 && SmoothRun(config, steps[..2]);
    assert Contents(config, steps[..1]) == map[path := []];
    assert Contents(config, steps[..2]) == map[path := []];
    assert s2.objects - {path} == map[];
    assert Run(config, steps).cache == map[b := []];
  }

  /**
   Over a set of keys every smooth run reads the bytes saved last exactly when none of the keys that objects can be
   saved under has another spelling in the set.
   */
  lemma ReadsLastExactlyWhen(config: Config, keys: set<Key>)
    ensures AlwaysReadsLast(config, keys) <==> OneSpelling(config, keys)
  {
    if OneSpelling(config, keys) {
      forall steps, key, faults | SmoothRun(config, steps) && Over(steps, keys) && key in keys
        ensures ReadsLast(config, steps, key, faults)
      {
        SmoothRunIsSound(config, keys, steps);
        StoreIsAMap(config, steps);
      }
    } else {
      var a, b :| a in keys && b in keys && Savable(config, a) && config.clean(a) == config.clean(b) && a != b;
      OtherSpellingReadsDeletedBytes(config, a, b);
      var steps := [Save(SaveRequest(-1, a, [], NO_SAVE_FAULTS)), Load(b, LoadFaults(false, false, false)),
                    Delete(a, DeleteFaults(false, false, false, false))];
      assert Over(steps, keys);
      assert !ReadsLast(config, steps, b, LoadFaults(false, false, false));
    }
  }

  /** With one spelling for each key, a Load fails only for a stated reason, and Exist agrees with what was saved. */
  lemma ReadsTheLastSave(config: Config, keys: set<Key>, steps: seq<Step>, key: Key, faults: LoadFaults, storageFails: bool)
    requires OneSpelling(config, keys) && SmoothRun(config, steps) && Over(steps, keys)
    requires key in keys && !Traverses(config, key)
    ensures var s, path := Run(config, steps), config.clean(key);
            && ReadsLast(config, steps, key, faults)
            && (LoadResult(s, config, key, faults).Err? <==>
                  faults.cacheGet || (key !in s.cache && (faults.load || path !in Contents(config, steps))))
            && var found := ExistResult(s, config, key, false, storageFails);
            && (found.Ok? ==> (found.value == 1 <==> path in Contents(config, steps)) && found.value <= 1)
            && (found.Err? ==> storageFails)
  {
    SmoothRunIsSound(config, keys, steps);
    StoreIsAMap(config, steps);
  }
}
