/** The objects of datastore/memory: the datastore, its transactions and its batches. */
module MemoryStore {
  import opened Options
  import opened ByteOrder
  import opened Memory
  import opened Purge
  import opened Transactions
  import opened Queries

  datatype Status = Ok | ErrTxnDiscarded | ErrReadOnlyTxn | ErrTxnConflict

  const HOUR := 3600

  function Unexpired(inFlight: map<nat, nat>, now: nat): map<nat, nat> {
    map v | v in inFlight && inFlight[v] >= now :: inFlight[v]
  }

  class Datastore {
    var version: nat
    var values: Tree
    /** The snapshot versions of the transactions in flight, with the times they expire; equal ones share an entry. */
    var inFlight: map<nat, nat>

    constructor ()
      ensures version == 0 && values == [] && inFlight == map[]
    {
      version, values, inFlight := 0, [], map[];
    }

    method PurgeBound() returns (v: nat)
      ensures IsPurgeBound(version, inFlight.Keys, v) && (inFlight == map[] ==> v == version)
    {
      v := version;
      var rest := inFlight.Keys;
      if rest != {} {
        v :| v in rest;
        while rest != {}
          invariant rest <= inFlight.Keys && v in inFlight
          invariant forall u :: u in inFlight ==> u in rest || v <= u
          decreases rest
        {
          var u :| u in rest;
          rest := rest - {u};
          if u < v {
            v := u;
          }
        }
      }
    }

    /** One pass over the tree, which stops early after a thousand finds. */
    method CollectOld(v: nat) returns (found: seq<Item>)
      requires Sorted(values)
      ensures forall x :: x in found ==> x in values && Shadowed(values, x, v)
      ensures found == [] ==> forall x :: x in values ==> !Shadowed(values, x, v)
    {
      found := [];
      if values == [] {
        return;
      }
      var item := values[0];
      var idx := 1;
      while idx < |values| && |found| < MAX_DELETIONS
        invariant Scanned(values, v, idx, item, found)
      {
        ScanStep(values, v, idx, item, found);
        var next := values[idx];
        if next.version <= v {
          if item.key == next.key {
            found := found + [item];
          }
          item := next;
        }
        idx := idx + 1;
      }
      if found == [] {
        NothingLeft(values, v, item);
      }
    }

    method ExecutePurge() returns (v: nat)
      requires Sorted(values)
      modifies this`values
      ensures IsPurgeBound(version, inFlight.Keys, v) && (inFlight == map[] ==> v == version)
      ensures IsPurged(old(values), v, values)
    {
      v := PurgeBound();
      ghost var t := values;
      while true
        invariant Sorted(values)
        invariant forall x :: x in values ==> x in t
        invariant forall x :: x in t && x !in values ==> Shadowed(t, x, v)
        decreases |values|
      {
        var found := CollectOld(v);
        if found == [] {
          forall x | x in values ensures !Shadowed(t, x, v) {
            if Shadowed(t, x, v) {
              ShadowStays(t, values, x, v);
            }
          }
          return;
        }
        DeleteAll(found, t, v);
      }
    }

    method DeleteAll(found: seq<Item>, ghost t: Tree, v: nat)
      requires Sorted(values) && found != []
      requires forall x :: x in found ==> x in values && Shadowed(values, x, v)
      requires forall x :: x in values ==> x in t
      requires forall x :: x in t && x !in values ==> Shadowed(t, x, v)
      modifies this`values
      ensures Sorted(values) && |values| < |old(values)|
      ensures forall x :: x in values ==> x in t
      ensures forall x :: x in t && x !in values ==> Shadowed(t, x, v)
    {
      ghost var was := values;
      for i := 0 to |found|
        invariant Sorted(values) && (if i == 0 then values == was else |values| < |was|)
        invariant forall x :: x in values ==> x in was
        invariant forall x :: x in was && x !in values ==> x in found
      {
        RemoveIsSorted(values, found[i]);
        assert found[i] in found;
        forall x | x in was && x !in Remove(values, found[i]) && x in values ensures x in found {
          SlotUnique(was, x, found[i]);
        }
        values := Remove(values, found[i]);
      }
      forall x | x in t && x !in values ensures Shadowed(t, x, v) {
        if x in was {
          ShadowedBefore(t, was, x, v);
        }
      }
    }

    /** The latest value of a key. */
    method Get(k: Key) returns (r: Option<Bytes>)
      ensures r == Read(values, k, version)
    {
      var item := Lookup(values, k, version);
      if item.key == [] || item.isDeleted {
        return None;
      }
      return Some(item.val);
    }

    method NewTransaction(readOnly: bool, now: nat) returns (t: BasicTxn)
      modifies this`inFlight
      ensures fresh(t) && t.ds == this && t.Model() == Txn([], version, readOnly) && !t.discarded
      ensures inFlight == old(inFlight)[version := now + HOUR]
    {
      t := new BasicTxn(this, readOnly);
      inFlight := inFlight[version := now + HOUR];
    }

    /** Drops the entries that have expired. */
    method ClearOldInFlight(now: nat)
      modifies this`inFlight
      ensures inFlight == Unexpired(old(inFlight), now)
    {
      var rest := inFlight.Keys;
      ghost var was := inFlight;
      while rest != {}
        invariant rest <= inFlight.Keys
        invariant inFlight == map v | v in was && (v in rest || was[v] >= now) :: was[v]
        decreases rest
      {
        var v :| v in rest;
        rest := rest - {v};
        if now > inFlight[v] {
          inFlight := inFlight - {v};
        }
      }
    }

    /** Stores the writes of a transaction that passes the check under the next version; the others are kept out. */
    method CommitOps(t: BasicTxn) returns (r: Status)
      requires t.ds == this
      modifies this`version, this`values
      ensures r == if NoConflict(old(values), old(version), t.Model()) then Ok else ErrTxnConflict
      ensures r == Ok ==> version == old(version) + 1 && values == WriteAll(old(values), t.ops, version)
      ensures r != Ok ==> version == old(version) && values == old(values)
    {
      var ok := t.CheckForConflicts();
      if !ok {
        return ErrTxnConflict;
      }
      version := version + 1;
      ghost var was := values;
      for i := 0 to |t.ops|
        modifies this`values
        invariant values == WriteAll(was, t.ops[..i], version)
      {
        assert t.ops[..i + 1][..i] == t.ops[..i];
        if t.ops[i].isGet {
          continue;
        }
        values := Insert(values, t.ops[i].(version := version));
      }
      assert t.ops[..|t.ops|] == t.ops;
      return Ok;
    }
  }

  class BasicTxn {
    const ds: Datastore
    const dsVersion: nat
    const readOnly: bool
    var ops: Tree
    var discarded: bool

    constructor (ds: Datastore, readOnly: bool)
      ensures this.ds == ds && Model() == Txn([], ds.version, readOnly) && !discarded
    {
      this.ds, this.readOnly, this.dsVersion := ds, readOnly, ds.version;
      ops, discarded := [], false;
    }

    function Model(): Txn
      reads this
    {
      Txn(ops, dsVersion, readOnly)
    }

    method GetItem(k: Key) returns (item: Item)
      modifies this`ops
      ensures item == ReadItem(ds.values, old(Model()), k)
      ensures Model() == AfterRead(ds.values, old(Model()), k)
    {
      item := Lookup(ops, k, dsVersion + 1);
      if item.key == [] {
        item := Lookup(ds.values, k, dsVersion).(isGet := true);
        ops := Insert(ops, item);
      }
    }

    method Get(k: Key) returns (st: Status, r: Option<Bytes>)
      modifies this`ops
      ensures discarded ==> st == ErrTxnDiscarded && Model() == old(Model())
      ensures !discarded ==> st == Ok && r == View(ds.values, old(Model()), k)
                             && Model() == AfterOp(ds.values, old(Model()), Op.Get(k))
    {
      if discarded {
        return ErrTxnDiscarded, None;
      }
      var item := GetItem(k);
      if item.key == [] || item.isDeleted {
        return Ok, None;
      }
      return Ok, Some(item.val);
    }

    method Put(k: Key, v: Bytes) returns (st: Status)
      modifies this`ops
      ensures st == if discarded then ErrTxnDiscarded else if readOnly then ErrReadOnlyTxn else Ok
      ensures Model() == if discarded then old(Model()) else AfterOp(ds.values, old(Model()), Op.Put(k, v))
    {
      if discarded {
        return ErrTxnDiscarded;
      }
      if readOnly {
        return ErrReadOnlyTxn;
      }
      ops := Insert(ops, Item(k, dsVersion + 1, v, false, false));
      return Ok;
    }

    method Delete(k: Key) returns (st: Status)
      modifies this`ops
      ensures st == if discarded then ErrTxnDiscarded else if readOnly then ErrReadOnlyTxn else Ok
      ensures Model() == if discarded then old(Model()) else AfterOp(ds.values, old(Model()), Op.Delete(k))
    {
      if discarded {
        return ErrTxnDiscarded;
      }
      if readOnly {
        return ErrReadOnlyTxn;
      }
      var item := GetItem(k);
      if item.key == [] || item.isDeleted {
        return Ok;
      }
      ops := Insert(ops, Item(k, dsVersion + 1, [], true, false));
      return Ok;
    }

    /** A query sees the latest version of what the transaction has not recorded. */
    method Query() returns (st: Status, re: seq<Entry>)
      requires Fits(ds.values, ds.version, Model())
      ensures discarded ==> st == ErrTxnDiscarded
      ensures !discarded ==> st == Ok && KeysAscend(re) && AnswersSees(re, ds.values, ds.version, Model())
      ensures !discarded && ds.version == dsVersion ==> AnswersReads(re, ds.values, Model())
    {
      if discarded {
        return ErrTxnDiscarded, [];
      }
      st := Ok;
      re := Queries.Query(ds.values, ds.version, Model());
    }

    method CheckForConflicts() returns (ok: bool)
      ensures ok <==> NoConflict(ds.values, ds.version, Model())
    {
      if dsVersion == ds.version {
        return true;
      }
      for i := 0 to |ops|
        invariant forall a :: 0 <= a < i ==> Lookup(ds.values, NewKey(ops[a].key), dsVersion).version
                                             == Lookup(ds.values, NewKey(ops[a].key), ds.version).version
      {
        var expected := Lookup(ds.values, NewKey(ops[i].key), dsVersion);
        var latest := Lookup(ds.values, NewKey(ops[i].key), ds.version);
        if latest.version != expected.version {
          assert ops[i] in Model().ops;
          return false;
        }
      }
      return true;
    }

    /** Forgets the recorded calls; the entry of the snapshot goes, with every entry that has expired. */
    method Discard(now: nat)
      modifies this, ds`inFlight
      ensures discarded
      ensures ops == if old(discarded) then old(ops) else []
      ensures ds.inFlight
              == if old(discarded) then old(ds.inFlight) else Unexpired(old(ds.inFlight) - {dsVersion}, now)
    {
      if discarded {
        return;
      }
      ops := [];
      ds.inFlight := ds.inFlight - {dsVersion};
      ds.ClearOldInFlight(now);
      discarded := true;
    }

    method Commit(now: nat) returns (r: Status)
      modifies this, ds
      ensures discarded
      ensures r == if old(discarded) then ErrTxnDiscarded
                   else if readOnly || NoConflict(old(ds.values), old(ds.version), old(Model())) then Ok
                   else ErrTxnConflict
      ensures if r == Ok && !readOnly
              then ds.version == old(ds.version) + 1 && ds.values == WriteAll(old(ds.values), old(ops), ds.version)
              else ds.version == old(ds.version) && ds.values == old(ds.values)
      ensures ops == if old(discarded) then old(ops) else []
      ensures ds.inFlight
              == if old(discarded) then old(ds.inFlight) else Unexpired(old(ds.inFlight) - {dsVersion}, now)
    {
      if discarded {
        return ErrTxnDiscarded;
      }
      r := Ok;
      if !readOnly {
        r := ds.CommitOps(this);
      }
      Discard(now);
    }
  }

  datatype BatchOp = BatchPut(val: Bytes) | BatchDelete

  class BasicBatch {
    const ds: Datastore
    var ops: map<Key, BatchOp>

    constructor (ds: Datastore)
      ensures this.ds == ds && ops == map[]
    {
      this.ds, ops := ds, map[];
    }

    method Put(k: Key, v: Bytes)
      modifies this
      ensures ops == old(ops)[k := BatchPut(v)]
    {
      ops := ops[k := BatchPut(v)];
    }

    method Delete(k: Key)
      modifies this
      ensures ops == old(ops)[k := BatchDelete]
    {
      ops := ops[k := BatchDelete];
    }

    /** The item that a commit of the batch stores for a key. */
    function ItemFor(k: Key, version: nat): Item
      reads this
      requires k in ops
    {
      match ops[k]
      case BatchPut(v) => Item(k, version, v, false, false)
      case BatchDelete => Item(k, version, [], true, false)
    }

    /** One more version, which holds the operations of the batch, stored in some order. */
    method Commit() returns (ghost writes: seq<Item>)
      modifies ds
      ensures ds.version == old(ds.version) + 1 && ds.inFlight == old(ds.inFlight)
      ensures ds.values == WriteAll(old(ds.values), writes, ds.version)
      ensures KeysOf(writes) == ops.Keys
      ensures forall x :: x in writes ==> x.key in ops && x == ItemFor(x.key, ds.version)
    {
      ds.version := ds.version + 1;
      var rest := ops.Keys;
      ghost var was := ds.values;
      writes := [];
      while rest != {}
        modifies ds`values
        invariant rest <= ops.Keys && KeysOf(writes) == ops.Keys - rest
        invariant ds.values == WriteAll(was, writes, ds.version)
        invariant forall x :: x in writes ==> x.key in ops && x == ItemFor(x.key, ds.version)
        decreases rest
      {
        var k :| k in rest;
        var item := ItemFor(k, ds.version);
        WriteOneMore(was, writes, ds.version, item);
        rest := rest - {k};
        writes := writes + [item];
        ds.values := Insert(ds.values, item);
      }
    }
  }

  ghost function KeysOf(writes: seq<Item>): set<Key> { set x | x in writes :: x.key }

  lemma WriteOneMore(t: Tree, writes: seq<Item>, v: nat, x: Item)
    requires !x.isGet && x.version == v
    ensures WriteAll(t, writes + [x], v) == Insert(WriteAll(t, writes, v), x)
    ensures KeysOf(writes + [x]) == KeysOf(writes) + {x.key}
  {
    assert (writes + [x])[..|writes|] == writes;
    assert x.(version := v) == x;
  }
}
