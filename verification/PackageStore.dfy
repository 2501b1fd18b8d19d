/**
 Keeping the package bucket and the declaration table in step while packages are
 persisted and rolled back (internal/core/plugin_manager/packages.go and the bundle
 loop of internal/service/plugin_decoder.go). Media assets are left out; a failing
 asset remap is a failure before anything is stored. Calls that fail change nothing.
 */
module PackageStore {
  import opened Wrappers

  type Identifier = string
  type Declaration = string
  type Bytes = seq<Byte>

  datatype Store = Store(bucket: map<Identifier, Bytes>, table: map<Identifier, Declaration>)

  /** Every declaration row has its package in the bucket. */
  ghost predicate Integrity(s: Store) {
    s.table.Keys <= s.bucket.Keys
  }

  // ------------------------------------------------------------- the storage calls

  /** The bucket and the table; no call that satisfies its precondition breaks integrity. */
  class Storage {
    var bucket: map<Identifier, Bytes>
    var table: map<Identifier, Declaration>

    ghost function View(): Store
      reads this
    {
      Store(bucket, table)
    }

    constructor ()
      ensures View() == Store(map[], map[])
    {
      bucket, table := map[], map[];
    }

    method SavePackage(id: Identifier, data: Bytes, fails: bool) returns (ok: bool)
      requires Integrity(View())
      modifies this`bucket
      ensures Integrity(View()) && ok == !fails
      ensures bucket == if ok then old(bucket)[id := data] else old(bucket)
    {
      if !fails {
        bucket := bucket[id := data];
      }
      ok := !fails;
    }

    method DeletePackage(id: Identifier)
      requires Integrity(View()) && id !in table
      modifies this`bucket
      ensures Integrity(View()) && bucket == old(bucket) - {id}
    {
      bucket := bucket - {id};
    }

    method CreateDeclaration(id: Identifier, declaration: Declaration, fails: bool) returns (ok: bool)
      requires Integrity(View()) && id in bucket
      modifies this`table
      ensures Integrity(View()) && ok == !fails
      ensures table == if ok then old(table)[id := declaration] else old(table)
    {
      if !fails {
        table := table[id := declaration];
      }
      ok := !fails;
    }

    method DeleteDeclaration(id: Identifier)
      requires Integrity(View())
      modifies this`table
      ensures Integrity(View()) && table == old(table) - {id}
    {
      table := table - {id};
    }
  }

  // ------------------------------------------------------------- persisting and rolling back

  datatype Package = Package(id: Identifier, bytes: Bytes, declaration: Declaration)

  /** What a prepared package remembers of its persisting. */
  datatype Record = Record(
    packageSaved: bool, packageExisted: bool, previousPackage: Bytes, declarationCreated: bool)

  const UNTOUCHED := Record(false, false, [], false)

  function BytesIn(s: Store, id: Identifier): Option<Bytes> {
    if id in s.bucket then Some(s.bucket[id]) else None
  }

  /** Rolling one package back; its own calls are taken to succeed. */
  function Undone(s: Store, p: Package, r: Record): Store {
    var table := if r.declarationCreated then s.table - {p.id} else s.table;
    if r.packageSaved && BytesIn(s, p.id) == Some(p.bytes) && p.id !in table then
      Store(if r.packageExisted then s.bucket[p.id := r.previousPackage] else s.bucket - {p.id}, table)
    else s.(table := table)
  }

  /**
   Which of the storage calls of one PersistPackage fail. A rival is a row that another writer inserts just after the
   lookup found none: the insert is then refused as a duplicate, and a second lookup finds the row.
   */
  datatype Faults = Faults(
    exists_: bool, get: bool, remap: bool, save: bool, lookup: bool, create: bool, rival: Option<Declaration>)

  /** The package gets as far as being written. */
  predicate Writes(s: Store, p: Package, f: Faults) {
    !f.exists_ && !(p.id in s.bucket && f.get) && !f.remap && !f.save
  }

  predicate Succeeds(s: Store, p: Package, f: Faults) {
    Writes(s, p, f) && !f.lookup && (p.id in s.table || f.rival.Some? || !f.create)
  }

  /** Success stores and declares the package; a failure leaves a declared identifier with the bytes it had written, and else nothing. */
  function AfterPersist(s: Store, p: Package, f: Faults): Store {
    if Succeeds(s, p, f) then
      Store(s.bucket[p.id := p.bytes],
            if p.id in s.table then s.table
            else s.table[p.id := if f.rival.Some? then f.rival.value else p.declaration])
    else if Writes(s, p, f) && p.id in s.table then s.(bucket := s.bucket[p.id := p.bytes])
    else s
  }

  function RecordOf(s: Store, p: Package, f: Faults): Record {
    Record(true, p.id in s.bucket, if p.id in s.bucket then s.bucket[p.id] else [], p.id !in s.table && f.rival.None?)
  }

  class PreparedPackage {
    const package: Package
    var packageSaved: bool
    var packageExisted: bool
    var previousPackage: Bytes
    var declarationCreated: bool

    ghost function View(): Record
      reads this
    {
      Record(packageSaved, packageExisted, previousPackage, declarationCreated)
    }

    constructor (package: Package)
      ensures this.package == package && View() == UNTOUCHED
    {
      this.package := package;
      packageSaved, packageExisted, previousPackage, declarationCreated := false, false, [], false;
    }
  }

  method RollbackPreparedPackage(storage: Storage, prepared: PreparedPackage)
    requires Integrity(storage.View())
    modifies storage
    ensures Integrity(storage.View())
    ensures storage.View() == Undone(old(storage.View()), prepared.package, prepared.View())
  {
    var p := prepared.package;
    if prepared.declarationCreated {
      storage.DeleteDeclaration(p.id);
    }
    if prepared.packageSaved {
      if p.id in storage.bucket && storage.bucket[p.id] == p.bytes {
        if p.id !in storage.table {
          if prepared.packageExisted {
            var _ := storage.SavePackage(p.id, prepared.previousPackage, false);
          } else {
            storage.DeletePackage(p.id);
          }
        }
      }
    }
  }

  /** Persists one package. Integrity holds after every storage call. */
  method PersistPackage(storage: Storage, prepared: PreparedPackage, faults: Faults) returns (ok: bool)
    requires Integrity(storage.View())
    modifies storage, prepared
    ensures Integrity(storage.View())
    ensures ok <==> Succeeds(old(storage.View()), prepared.package, faults)
    ensures storage.View() == AfterPersist(old(storage.View()), prepared.package, faults)
    ensures ok ==> prepared.View() == RecordOf(old(storage.View()), prepared.package, faults)
    ensures var id := prepared.package.id;
            ok <==>
            && !faults.exists_ && !(id in old(storage.bucket) && faults.get) && !faults.remap && !faults.save && !faults.lookup
            && (id in old(storage.table) || faults.rival.Some? || !faults.create)
    ensures ok ==> var p := prepared.package;
            && storage.bucket == old(storage.bucket)[p.id := p.bytes]
            && p.id in storage.table
            && storage.table[p.id] == (if p.id in old(storage.table) then old(storage.table)[p.id]
                                       else if faults.rival.Some? then faults.rival.value else p.declaration)
            && prepared.packageSaved
            && (prepared.packageExisted <==> p.id in old(storage.bucket))
            && (prepared.packageExisted ==> prepared.previousPackage == old(storage.bucket)[p.id])
            && (prepared.declarationCreated <==> p.id !in old(storage.table) && faults.rival.None?)
  {
    var p := prepared.package;
    prepared.packageSaved, prepared.packageExisted := false, false;
    prepared.previousPackage, prepared.declarationCreated := [], false;
    if faults.exists_ {
      return false;
    }
    if p.id in storage.bucket {
      if faults.get {
        return false;
      }
      prepared.packageExisted := true;
      prepared.previousPackage := storage.bucket[p.id];
    }
    if faults.remap {
      RollbackPreparedPackage(storage, prepared);
      return false;
    }
    var saved := storage.SavePackage(p.id, p.bytes, faults.save);
    if !saved {
      RollbackPreparedPackage(storage, prepared);
      return false;
    }
    prepared.packageSaved := true;
    ok := DeclarePackage(storage, prepared, faults);
    if !ok {
      UnsavedAgain(old(storage.View()), p);
      RollbackPreparedPackage(storage, prepared);
    }
  }

  /** The second half of persisting: the declaration row of a package that was written. */
  method DeclarePackage(storage: Storage, prepared: PreparedPackage, faults: Faults) returns (ok: bool)
    requires Integrity(storage.View()) && prepared.package.id in storage.bucket && !prepared.declarationCreated
    modifies storage`table, prepared`declarationCreated
    ensures Integrity(storage.View())
    ensures var p := prepared.package;
            && (ok <==> !faults.lookup && (p.id in old(storage.table) || faults.rival.Some? || !faults.create))
            && storage.table == (if !ok || p.id in old(storage.table) then old(storage.table)
                                 else old(storage.table)[p.id := if faults.rival.Some? then faults.rival.value else p.declaration])
            && prepared.declarationCreated == (ok && p.id !in old(storage.table) && faults.rival.None?)
  {
    var p := prepared.package;
    if faults.lookup {
      return false;
    }
    if p.id !in storage.table {
      if faults.rival.Some? {
        var _ := storage.CreateDeclaration(p.id, faults.rival.value, false);
      }
      var created := storage.CreateDeclaration(p.id, p.declaration, faults.create || faults.rival.Some?);
      if !created {
        // a duplicate, or else a second lookup says whether another writer's row is there now
        return p.id in storage.table;
      }
      prepared.declarationCreated := true;
    }
    return true;
  }

  /** Taking an undeclared package back out of the bucket right after it was written. */
  lemma UnsavedAgain(s: Store, p: Package)
    ensures var written := s.bucket[p.id := p.bytes];
            (if p.id in s.bucket then written[p.id := s.bucket[p.id]] else written - {p.id}) == s.bucket
  {
  }

  /**
   Rolling back a package right after it was persisted restores the store exactly when it replaced no other bytes of
   a declared package, and no rival declared it.
   */
  lemma UndoneExactlyWhen(s: Store, p: Package, f: Faults)
    requires Succeeds(s, p, f)
    ensures Undone(AfterPersist(s, p, f), p, RecordOf(s, p, f)) == s
            <==> if p.id in s.table then BytesIn(s, p.id) == Some(p.bytes) else f.rival.None?
  {
    var t := AfterPersist(s, p, f);
    var u := Undone(t, p, RecordOf(s, p, f));
    if p.id !in s.table && f.rival.None? {
      UnsavedAgain(s, p);
      assert u.table == s.table;
    } else if p.id in s.table {
      assert u == t && BytesIn(u, p.id) == Some(p.bytes);
      if BytesIn(s, p.id) == Some(p.bytes) {
        assert t.bucket == s.bucket;
      }
    } else {
      assert p.id in u.table;
    }
  }

  // ------------------------------------------------------------- bundles

  /** The store after the first n packages were tried one after the other. */
  function StoreAfter(s: Store, packages: seq<Package>, faults: nat -> Faults, n: nat): Store
    requires n <= |packages|
  {
    if n == 0 then s else AfterPersist(StoreAfter(s, packages, faults, n - 1), packages[n - 1], faults(n - 1))
  }

  /** What package k of a bundle remembers. */
  function RecordAt(s: Store, packages: seq<Package>, faults: nat -> Faults, k: nat): Record
    requires k < |packages|
  {
    RecordOf(StoreAfter(s, packages, faults, k), packages[k], faults(k))
  }

  ghost predicate AllSucceed(s: Store, packages: seq<Package>, faults: nat -> Faults, n: nat)
    requires n <= |packages|
  {
    n > 0 ==>
      AllSucceed(s, packages, faults, n - 1) && Succeeds(StoreAfter(s, packages, faults, n - 1), packages[n - 1], faults(n - 1))
  }

  lemma {:induction false} SucceedsAt(s: Store, packages: seq<Package>, faults: nat -> Faults, n: nat, k: nat)
    requires k < n <= |packages| && AllSucceed(s, packages, faults, n)
    ensures AllSucceed(s, packages, faults, k) && Succeeds(StoreAfter(s, packages, faults, k), packages[k], faults(k))
  {
    if k < n - 1 {
      SucceedsAt(s, packages, faults, n - 1, k);
    }
  }

  /** Package i is the first to fail. */
  ghost predicate FailsFirst(s: Store, packages: seq<Package>, faults: nat -> Faults, i: nat) {
    && i < |packages| && AllSucceed(s, packages, faults, i)
    && !Succeeds(StoreAfter(s, packages, faults, i), packages[i], faults(i))
  }

  /** After package i failed: the packages before it, down to package j, are rolled back, the last one first. */
  function RolledBack(s: Store, packages: seq<Package>, faults: nat -> Faults, i: nat, j: nat): Store
    requires j <= i < |packages|
    decreases i - j
  {
    if j == i then StoreAfter(s, packages, faults, i + 1)
    else Undone(RolledBack(s, packages, faults, i, j + 1), packages[j], RecordAt(s, packages, faults, j))
  }

  /** The bytes of the first package with this identifier, from package j on and before package n. */
  function First(packages: seq<Package>, j: nat, n: nat, id: Identifier): Option<Bytes>
    requires j <= n <= |packages|
    decreases n - j
  {
    if j == n then None else if packages[j].id == id then Some(packages[j].bytes) else First(packages, j + 1, n, id)
  }

  /** The bytes of the last package with this identifier among the first n. */
  function Last(packages: seq<Package>, n: nat, id: Identifier): Option<Bytes>
    requires n <= |packages|
  {
    if n == 0 then None
    else if packages[n - 1].id == id then Some(packages[n - 1].bytes) else Last(packages, n - 1, id)
  }

  /** Nobody else inserts a declaration meanwhile. */
  ghost predicate NoRivals(faults: nat -> Faults) {
    forall k :: faults(k).rival == None
  }

  /** What persisting a package does to one identifier. */
  lemma PersistedEntry(s: Store, p: Package, f: Faults, id: Identifier)
    requires Succeeds(s, p, f)
    ensures var t := AfterPersist(s, p, f);
            && BytesIn(t, id) == (if id == p.id then Some(p.bytes) else BytesIn(s, id))
            && (id in t.table <==> id in s.table || id == p.id)
            && (id in s.table ==> t.table[id] == s.table[id])
  {
  }

  /** A bundle that went through leaves every package declared, and every identifier with the bytes saved last. */
  lemma {:induction false} AllStored(s: Store, packages: seq<Package>, faults: nat -> Faults, n: nat, id: Identifier)
    requires n <= |packages| && AllSucceed(s, packages, faults, n)
    ensures var t := StoreAfter(s, packages, faults, n);
            && BytesIn(t, id) == (if Last(packages, n, id).Some? then Last(packages, n, id) else BytesIn(s, id))
            && (id in t.table <==> id in s.table || Last(packages, n, id).Some?)
            && (id in s.table ==> t.table[id] == s.table[id])
  {
    if n > 0 {
      hide Succeeds, AfterPersist, BytesIn;
      AllStored(s, packages, faults, n - 1, id);
      PersistedEntry(StoreAfter(s, packages, faults, n - 1), packages[n - 1], faults(n - 1), id);
    }
  }

  /** A package before package i made no difference to another identifier. */
  lemma OtherIdentifier(s: Store, p: Package, f: Faults, id: Identifier)
    requires id != p.id
    ensures var t := AfterPersist(s, p, f);
            BytesIn(t, id) == BytesIn(s, id) && (id in t.table <==> id in s.table)
  {
  }

  lemma UndoneOther(s: Store, p: Package, r: Record, id: Identifier)
    requires id != p.id
    ensures BytesIn(Undone(s, p, r), id) == BytesIn(s, id)
  {
  }

  lemma TableUndone(now: Store, s: Store, p: Package, f: Faults)
    requires Succeeds(s, p, f) && f.rival == None && now.table == AfterPersist(s, p, f).table
    ensures Undone(now, p, RecordOf(s, p, f)).table == s.table
  {
    assert p.id !in s.table ==> s.table[p.id := p.declaration] - {p.id} == s.table;
  }

  /** What undoing a package does to its own identifier: it gets back what it had exactly if it has these bytes and was not declared. */
  lemma BytesUndone(now: Store, s: Store, p: Package, f: Faults)
    requires Succeeds(s, p, f) && f.rival == None && now.table == AfterPersist(s, p, f).table
    ensures BytesIn(Undone(now, p, RecordOf(s, p, f)), p.id)
         == if p.id !in s.table && BytesIn(now, p.id) == Some(p.bytes) then BytesIn(s, p.id) else BytesIn(now, p.id)
  {
    TableUndone(now, s, p, f);
  }

  /** Rolling back takes out exactly the rows that were created. */
  lemma {:induction false} TableRolledBack(s: Store, packages: seq<Package>, faults: nat -> Faults, i: nat, j: nat)
    requires j <= i && FailsFirst(s, packages, faults, i) && NoRivals(faults)
    ensures RolledBack(s, packages, faults, i, j).table == StoreAfter(s, packages, faults, j).table
    decreases i - j
  {
    if j < i {
      TableRolledBack(s, packages, faults, i, j + 1);
      SucceedsAt(s, packages, faults, i, j);
      hide Succeeds, AfterPersist, Undone, RecordOf, FailsFirst;
      TableUndone(RolledBack(s, packages, faults, i, j + 1), StoreAfter(s, packages, faults, j), packages[j], faults(j));
    }
  }

  /**
   What rolling back down to package j leaves of one identifier, in terms of the bytes saved last: a declared one
   keeps these; another one gets back what it had, if these are those of its first package, and keeps them otherwise.
   */
  function Leftover(s: Store, packages: seq<Package>, faults: nat -> Faults, i: nat, j: nat, id: Identifier): Option<Bytes>
    requires j <= i < |packages|
  {
    var saved := BytesIn(StoreAfter(s, packages, faults, i + 1), id);
    var then_ := StoreAfter(s, packages, faults, j);
    var first := First(packages, j, i, id);
    if id in then_.table then saved
    else if first.None? || saved == first then BytesIn(then_, id)
    else saved
  }

  /** How the leftover changes when one more package is rolled back. */
  lemma LeftoverNext(s: Store, packages: seq<Package>, faults: nat -> Faults, i: nat, j: nat, id: Identifier)
    requires j < i < |packages| && Succeeds(StoreAfter(s, packages, faults, j), packages[j], faults(j))
    ensures var before, p, rest := StoreAfter(s, packages, faults, j), packages[j], Leftover(s, packages, faults, i, j + 1, id);
            Leftover(s, packages, faults, i, j, id)
            == if id == p.id && id !in before.table && rest == Some(p.bytes) then BytesIn(before, id) else rest
  {
    PersistedEntry(StoreAfter(s, packages, faults, j), packages[j], faults(j), id);
    StoreMore(s, packages, faults, j);
    hide StoreAfter, AfterPersist, Succeeds, BytesIn;
  }

  /** Rolling back leaves of every identifier what Leftover says. */
  lemma {:induction false} BytesRolledBack(s: Store, packages: seq<Package>, faults: nat -> Faults, i: nat, j: nat, id: Identifier)
    requires j <= i && FailsFirst(s, packages, faults, i) && NoRivals(faults)
    ensures BytesIn(RolledBack(s, packages, faults, i, j), id) == Leftover(s, packages, faults, i, j, id)
    decreases i - j
  {
    if j < i {
      BytesRolledBack(s, packages, faults, i, j + 1, id);
      TableRolledBack(s, packages, faults, i, j + 1);
      SucceedsAt(s, packages, faults, i, j);
      StoreMore(s, packages, faults, j);
      RolledMore(s, packages, faults, i, j);
      LeftoverNext(s, packages, faults, i, j, id);
      assert faults(j).rival == None;
      hide *;
      if id == packages[j].id {
        BytesUndone(RolledBack(s, packages, faults, i, j + 1), StoreAfter(s, packages, faults, j), packages[j], faults(j));
      } else {
        UndoneOther(RolledBack(s, packages, faults, i, j + 1), packages[j], RecordOf(StoreAfter(s, packages, faults, j), packages[j], faults(j)), id);
      }
    }
  }

  /**
   The failing package i stays written: it got as far as being written, and its identifier was declared before, or by an
   earlier package.
   */
  predicate StaysWritten(s: Store, packages: seq<Package>, faults: nat -> Faults, i: nat)
    requires i < |packages|
  {
    var id, f := packages[i].id, faults(i);
    var earlier := Last(packages, i, id).Some?;
    && (id in s.table || earlier)
    && !f.exists_ && !((id in s.bucket || earlier) && f.get) && !f.remap && !f.save
  }

  /** The bytes saved last under an identifier when package i is the first to fail, or else those it had. */
  function SavedLast(s: Store, packages: seq<Package>, faults: nat -> Faults, i: nat, id: Identifier): Option<Bytes>
    requires i < |packages|
  {
    var last := Last(packages, if StaysWritten(s, packages, faults, i) then i + 1 else i, id);
    if last.Some? then last else BytesIn(s, id)
  }

  lemma SavedLastIsThere(s: Store, packages: seq<Package>, faults: nat -> Faults, i: nat, id: Identifier)
    requires FailsFirst(s, packages, faults, i)
    ensures BytesIn(StoreAfter(s, packages, faults, i + 1), id) == SavedLast(s, packages, faults, i, id)
  {
    var before := StoreAfter(s, packages, faults, i);
    AllStored(s, packages, faults, i, id);
    AllStored(s, packages, faults, i, packages[i].id);
    assert StoreAfter(s, packages, faults, i + 1) == AfterPersist(before, packages[i], faults(i));
    hide StoreAfter, AllSucceed;
    assert StaysWritten(s, packages, faults, i) <==> Writes(before, packages[i], faults(i)) && packages[i].id in before.table;
  }

  /** Restoring the identifier of package k needs nothing but this. */
  ghost predicate Harmless(s: Store, packages: seq<Package>, faults: nat -> Faults, i: nat, k: nat)
    requires k <= i < |packages|
  {
    var id := packages[k].id;
    var saved := SavedLast(s, packages, faults, i, id);
    saved == BytesIn(s, id) || (id !in s.table && saved == First(packages, 0, i, id))
  }

  lemma {:induction false} NotAmong(s: Store, packages: seq<Package>, faults: nat -> Faults, n: nat, id: Identifier)
    requires n <= |packages| && forall k :: 0 <= k < n ==> packages[k].id != id
    ensures BytesIn(StoreAfter(s, packages, faults, n), id) == BytesIn(s, id)
  {
    if n > 0 {
      NotAmong(s, packages, faults, n - 1, id);
      OtherIdentifier(StoreAfter(s, packages, faults, n - 1), packages[n - 1], faults(n - 1), id);
    }
  }

  /**
   A bundle that fails at package i restores the declaration table. It restores the bucket, too, exactly when for each
   identifier in it the bytes saved last are those the bucket held before, or, if it was not declared before, those of
   the first package that was persisted under it.
   */
  lemma BundleRestoredExactlyWhen(s: Store, packages: seq<Package>, faults: nat -> Faults, i: nat)
    requires FailsFirst(s, packages, faults, i) && NoRivals(faults)
    ensures RolledBack(s, packages, faults, i, 0).table == s.table
    ensures RolledBack(s, packages, faults, i, 0) == s <==> forall k :: 0 <= k <= i ==> Harmless(s, packages, faults, i, k)
  {
    var t := RolledBack(s, packages, faults, i, 0);
    TableRolledBack(s, packages, faults, i, 0);
    forall k | 0 <= k <= i ensures Harmless(s, packages, faults, i, k) <==> BytesIn(t, packages[k].id) == BytesIn(s, packages[k].id) {
      Restored(s, packages, faults, i, packages[k].id);
    }
    if forall k :: 0 <= k <= i ==> Harmless(s, packages, faults, i, k) {
      forall id ensures BytesIn(t, id) == BytesIn(s, id) {
        if forall k :: 0 <= k <= i ==> packages[k].id != id {
          NotAmong(s, packages, faults, i + 1, id);
          SavedLastIsThere(s, packages, faults, i, id);
          Restored(s, packages, faults, i, id);
        }
      }
      SameBucket(t, s);
    }
  }

  /** One identifier is restored exactly under its part of the condition. */
  lemma Restored(s: Store, packages: seq<Package>, faults: nat -> Faults, i: nat, id: Identifier)
    requires FailsFirst(s, packages, faults, i) && NoRivals(faults)
    ensures var saved := SavedLast(s, packages, faults, i, id);
            BytesIn(RolledBack(s, packages, faults, i, 0), id) == BytesIn(s, id)
            <==> saved == BytesIn(s, id) || (id !in s.table && saved == First(packages, 0, i, id))
  {
    SavedLastIsThere(s, packages, faults, i, id);
    hide SavedLast;
    BytesRolledBack(s, packages, faults, i, 0, id);
    if id !in s.table && First(packages, 0, i, id) == None {
      NoneBefore(packages, 0, i, id);
      NotAmong(s, packages, faults, i, id);
      AllStored(s, packages, faults, i, id);
      NoneLast(packages, i, id);
    }
  }

  lemma {:induction false} NoneBefore(packages: seq<Package>, j: nat, n: nat, id: Identifier)
    requires j <= n <= |packages| && First(packages, j, n, id) == None
    ensures forall k :: j <= k < n ==> packages[k].id != id
    decreases n - j
  {
    if j < n {
      NoneBefore(packages, j + 1, n, id);
    }
  }

  lemma {:induction false} NoneLast(packages: seq<Package>, n: nat, id: Identifier)
    requires n <= |packages| && forall k :: 0 <= k < n ==> packages[k].id != id
    ensures Last(packages, n, id) == None
  {
    if n > 0 {
      NoneLast(packages, n - 1, id);
    }
  }

  lemma SameBucket(s: Store, t: Store)
    requires forall id :: BytesIn(s, id) == BytesIn(t, id)
    ensures s.bucket == t.bucket
  {
    forall id ensures (id in s.bucket <==> id in t.bucket) && (id in s.bucket ==> s.bucket[id] == t.bucket[id]) {
      assert BytesIn(s, id) == BytesIn(t, id);
    }
  }

  /** Identifiers carry a checksum: packages under one identifier, in the bucket or in the bundle, have the same bytes. */
  ghost predicate NamesBytes(s: Store, packages: seq<Package>) {
    && (forall k :: 0 <= k < |packages| && packages[k].id in s.bucket ==> s.bucket[packages[k].id] == packages[k].bytes)
    && forall j, k :: 0 <= j < |packages| && 0 <= k < |packages| && packages[j].id == packages[k].id ==>
         packages[j].bytes == packages[k].bytes
  }

  /** As long as identifiers name their bytes, a failing bundle leaves nothing behind. */
  lemma NamedBundleIsRestored(s: Store, packages: seq<Package>, faults: nat -> Faults, i: nat)
    requires Integrity(s) && FailsFirst(s, packages, faults, i) && NoRivals(faults) && NamesBytes(s, packages)
    ensures RolledBack(s, packages, faults, i, 0) == s
  {
    forall k | 0 <= k <= i ensures Harmless(s, packages, faults, i, k) {
      var id := packages[k].id;
      AllStored(s, packages, faults, i, id);
      if Last(packages, i, id).Some? {
        LastIsOne(packages, i, id);
        FirstIsOne(packages, 0, i, id);
      }
    }
    BundleRestoredExactlyWhen(s, packages, faults, i);
  }

  lemma {:induction false} LastIsOne(packages: seq<Package>, n: nat, id: Identifier)
    requires n <= |packages| && Last(packages, n, id).Some?
    ensures exists k :: 0 <= k < n && packages[k].id == id && Last(packages, n, id) == Some(packages[k].bytes)
  {
    if packages[n - 1].id != id {
      LastIsOne(packages, n - 1, id);
    }
  }

  lemma {:induction false} FirstIsOne(packages: seq<Package>, j: nat, n: nat, id: Identifier)
    requires j <= n <= |packages| && exists k :: j <= k < n && packages[k].id == id
    ensures exists k :: j <= k < n && packages[k].id == id && First(packages, j, n, id) == Some(packages[k].bytes)
    decreases n - j
  {
    if packages[j].id != id {
      FirstIsOne(packages, j + 1, n, id);
    }
  }

  const WORKS := Faults(false, false, false, false, false, false, None)
  const REFUSED := WORKS.(exists_ := true)

  /**
   Two packages of other bytes under one identifier, and a third that fails: the second one's bytes are left behind,
   without a declaration.
   */
  lemma OtherBytesAreLeftBehind(a: Bytes, b: Bytes, d: Declaration, third: Package)
    requires a != b
    ensures var packages := [Package("id", a, d), Package("id", b, d), third];
            var faults: nat -> Faults := k => if k == 2 then REFUSED else WORKS;
            && FailsFirst(Store(map[], map[]), packages, faults, 2)
            && RolledBack(Store(map[], map[]), packages, faults, 2, 0) == Store(map["id" := b], map[])
  {
    var packages := [Package("id", a, d), Package("id", b, d), third];
    var faults: nat -> Faults := k => if k == 2 then REFUSED else WORKS;
    var s0 := Store(map[], map[]);
    var s1 := Store(map["id" := a], map["id" := d]);
    var s2 := Store(map["id" := b], map["id" := d]);
    assert StoreAfter(s0, packages, faults, 0) == s0;
    assert StoreAfter(s0, packages, faults, 1) == s1;
    assert StoreAfter(s0, packages, faults, 2) == s2;
    assert StoreAfter(s0, packages, faults, 3) == s2;
    assert RolledBack(s0, packages, faults, 2, 2) == s2;
    assert RolledBack(s0, packages, faults, 2, 1) == s2;
    assert RolledBack(s0, packages, faults, 2, 0) == Store(map["id" := b], map[]) by {
      assert s2.table - {"id"} == map[];
    }
  }

  // ------------------------------------------------------------- the upload

  ghost function Packages(deps: seq<PreparedPackage>): (packages: seq<Package>)
    ensures |packages| == |deps|
  {
    seq(|deps|, k requires 0 <= k < |deps| => deps[k].package)
  }

  lemma PackageAt(deps: seq<PreparedPackage>, k: nat)
    requires k < |deps|
    ensures Packages(deps)[k] == deps[k].package
  {
  }

  /** The first packages remember these records. */
  ghost predicate Remember(deps: seq<PreparedPackage>, records: seq<Record>)
    requires |records| <= |deps|
    reads set k | 0 <= k < |records| :: deps[k]
  {
    forall k :: 0 <= k < |records| ==> deps[k].View() == records[k]
  }

  /** What the first i packages found. */
  ghost predicate Records(records: seq<Record>, s: Store, packages: seq<Package>, faults: nat -> Faults, i: nat)
    requires i <= |packages|
  {
    |records| == i && forall k :: 0 <= k < i ==> records[k] == RecordAt(s, packages, faults, k)
  }

  lemma RememberAt(deps: seq<PreparedPackage>, records: seq<Record>, k: nat)
    requires k < |records| <= |deps| && Remember(deps, records)
    ensures deps[k].View() == records[k]
  {
  }

  lemma RecordsAt(records: seq<Record>, s: Store, packages: seq<Package>, faults: nat -> Faults, i: nat, k: nat)
    requires k < i <= |packages| && Records(records, s, packages, faults, i)
    ensures |records| == i && records[k] == RecordAt(s, packages, faults, k)
  {
  }

  lemma RecordsMore(records: seq<Record>, s: Store, packages: seq<Package>, faults: nat -> Faults, i: nat, r: Record)
    requires i < |packages| && Records(records, s, packages, faults, i) && r == RecordAt(s, packages, faults, i)
    ensures Records(records + [r], s, packages, faults, i + 1)
  {
    hide RecordAt;
  }

  lemma StoreMore(s: Store, packages: seq<Package>, faults: nat -> Faults, i: nat)
    requires i < |packages|
    ensures StoreAfter(s, packages, faults, i + 1) == AfterPersist(StoreAfter(s, packages, faults, i), packages[i], faults(i))
    ensures RecordAt(s, packages, faults, i) == RecordOf(StoreAfter(s, packages, faults, i), packages[i], faults(i))
  {
  }

  lemma RolledMore(s: Store, packages: seq<Package>, faults: nat -> Faults, i: nat, j: nat)
    requires j < i < |packages|
    ensures RolledBack(s, packages, faults, i, j)
         == Undone(RolledBack(s, packages, faults, i, j + 1), packages[j], RecordAt(s, packages, faults, j))
  {
  }

  /** One turn of the loop: the next package is persisted, and what the others remember stays. */
  method PersistNext(storage: Storage, deps: seq<PreparedPackage>, i: nat, faults: Faults, ghost records: seq<Record>)
    returns (ok: bool)
    requires i == |records| < |deps| && (forall k :: 0 <= k < i ==> deps[k] != deps[i])
    requires Integrity(storage.View()) && Remember(deps, records)
    modifies storage, deps[i]
    ensures Integrity(storage.View())
    ensures ok <==> Succeeds(old(storage.View()), deps[i].package, faults)
    ensures storage.View() == AfterPersist(old(storage.View()), deps[i].package, faults)
    ensures Remember(deps, records)
    ensures ok ==> Remember(deps, records + [RecordOf(old(storage.View()), deps[i].package, faults)])
  {
    hide Succeeds, AfterPersist, RecordOf, Integrity;
    ok := PersistPackage(storage, deps[i], faults);
  }

  /**
   The persisting loop of a bundle upload. It succeeds exactly when every package is persisted, and then all are
   stored and declared; it fails at the first that is not, and leaves what rolling back the ones before it leaves.
   */
  method UploadPluginBundle(storage: Storage, deps: seq<PreparedPackage>, faults: nat -> Faults)
    returns (ok: bool, ghost failed: nat)
    requires Integrity(storage.View())
    requires forall j, k :: 0 <= j < k < |deps| ==> deps[j] != deps[k]
    modifies storage, deps
    ensures Integrity(storage.View())
    ensures ok <==> AllSucceed(old(storage.View()), Packages(deps), faults, |deps|)
    ensures ok ==> storage.View() == StoreAfter(old(storage.View()), Packages(deps), faults, |deps|)
    ensures !ok ==> FailsFirst(old(storage.View()), Packages(deps), faults, failed)
                    && storage.View() == RolledBack(old(storage.View()), Packages(deps), faults, failed, 0)
    // every identifier of an uploaded bundle is declared and has the bytes saved last
    ensures ok ==> forall k :: 0 <= k < |deps| ==>
      deps[k].package.id in storage.table
      && BytesIn(storage.View(), deps[k].package.id) == Last(Packages(deps), |deps|, deps[k].package.id)
    // nothing of a bundle that fails is left in the table, nor in the bucket as long as identifiers name their bytes
    ensures !ok && NoRivals(faults) ==> storage.table == old(storage.table)
    ensures !ok && NoRivals(faults) && NamesBytes(old(storage.View()), Packages(deps)) ==> storage.View() == old(storage.View())
  {
    ghost var start, packages := storage.View(), Packages(deps);
    assert AllSucceed(start, packages, faults, 0);
    ghost var records: seq<Record> := [];
    assert StoreAfter(start, packages, faults, 0) == start && Records(records, start, packages, faults, 0);
    hide StoreAfter, RecordAt, Succeeds, AllSucceed, FailsFirst, Integrity, RolledBack, NamesBytes, NoRivals, BytesIn, Last, Records, Packages, AfterPersist, RecordOf, Remember;
    failed := 0;
    for i := 0 to |deps|
      invariant Integrity(storage.View()) && storage.View() == StoreAfter(start, packages, faults, i)
      invariant AllSucceed(start, packages, faults, i)
      invariant Records(records, start, packages, faults, i) && |records| == i && Remember(deps, records)
    {
      StoreMore(start, packages, faults, i);
      PackageAt(deps, i);
      assert RecordAt(start, packages, faults, i) == RecordOf(storage.View(), deps[i].package, faults(i));
      var done := PersistNext(storage, deps, i, faults(i), records);
      if !done {
        Failing(start, packages, faults, i);
        AbortBundle(storage, deps, i, faults, start, records);
        WhatFailureLeaves(start, packages, faults, i);
        return false, i;
      }
      RecordsMore(records, start, packages, faults, i, RecordAt(start, packages, faults, i));
      records := records + [RecordAt(start, packages, faults, i)];
      OneMoreSucceeds(start, packages, faults, i);
    }
    EverythingStored(start, packages, faults);
    return true, failed;
  }

  lemma OneMoreSucceeds(s: Store, packages: seq<Package>, faults: nat -> Faults, i: nat)
    requires i < |packages| && AllSucceed(s, packages, faults, i)
    requires Succeeds(StoreAfter(s, packages, faults, i), packages[i], faults(i))
    ensures AllSucceed(s, packages, faults, i + 1)
  {
  }

  lemma Failing(s: Store, packages: seq<Package>, faults: nat -> Faults, i: nat)
    requires i < |packages| && AllSucceed(s, packages, faults, i)
    requires !Succeeds(StoreAfter(s, packages, faults, i), packages[i], faults(i))
    ensures FailsFirst(s, packages, faults, i) && !AllSucceed(s, packages, faults, |packages|)
  {
    if AllSucceed(s, packages, faults, |packages|) {
      SucceedsAt(s, packages, faults, |packages|, i);
    }
  }

  lemma WhatFailureLeaves(s: Store, packages: seq<Package>, faults: nat -> Faults, i: nat)
    requires Integrity(s) && FailsFirst(s, packages, faults, i)
    ensures NoRivals(faults) ==> RolledBack(s, packages, faults, i, 0).table == s.table
    ensures NoRivals(faults) && NamesBytes(s, packages) ==> RolledBack(s, packages, faults, i, 0) == s
  {
    if NoRivals(faults) {
      TableRolledBack(s, packages, faults, i, 0);
      if NamesBytes(s, packages) {
        NamedBundleIsRestored(s, packages, faults, i);
      }
    }
  }

  lemma EverythingStored(s: Store, packages: seq<Package>, faults: nat -> Faults)
    requires AllSucceed(s, packages, faults, |packages|)
    ensures var t := StoreAfter(s, packages, faults, |packages|);
            forall k :: 0 <= k < |packages| ==>
              packages[k].id in t.table && BytesIn(t, packages[k].id) == Last(packages, |packages|, packages[k].id)
  {
    forall k | 0 <= k < |packages|
      ensures var t := StoreAfter(s, packages, faults, |packages|);
              packages[k].id in t.table && BytesIn(t, packages[k].id) == Last(packages, |packages|, packages[k].id)
    {
      AllStored(s, packages, faults, |packages|, packages[k].id);
      SomeLast(packages, |packages|, k);
    }
  }

  lemma {:induction false} SomeLast(packages: seq<Package>, n: nat, k: nat)
    requires k < n <= |packages|
    ensures Last(packages, n, packages[k].id).Some?
  {
    if k < n - 1 {
      SomeLast(packages, n - 1, k);
    }
  }

  /** Package i failed to persist: the ones before it are rolled back, the last one first. */
  method AbortBundle(storage: Storage, deps: seq<PreparedPackage>, i: nat, faults: nat -> Faults, ghost start: Store,
                     ghost records: seq<Record>)
    requires i == |records| < |deps| && Integrity(storage.View()) && Remember(deps, records)
    requires Records(records, start, Packages(deps), faults, i)
    requires storage.View() == StoreAfter(start, Packages(deps), faults, i + 1)
    modifies storage
    ensures Integrity(storage.View())
    ensures storage.View() == RolledBack(start, Packages(deps), faults, i, 0)
  {
    assert RolledBack(start, Packages(deps), faults, i, i) == storage.View();
    hide *;
    var j := i;
    while j > 0
      invariant 0 <= j <= i && Integrity(storage.View()) && Remember(deps, records)
      invariant storage.View() == RolledBack(start, Packages(deps), faults, i, j)
    {
      j := j - 1;
      RolledMore(start, Packages(deps), faults, i, j);
      PackageAt(deps, j);
      RememberAt(deps, records, j);
      RecordsAt(records, start, Packages(deps), faults, i, j);
      RollbackPreparedPackage(storage, deps[j]);
    }
  }
}
