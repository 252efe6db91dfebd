/**
 The multi-version store of datastore/memory: items ordered by key and version, reads of a key at a version,
 commits, and the purge of old versions. The B-tree is the sorted sequence of its items.
 */
module Memory {
  import opened Options
  import opened ByteOrder

  // ---------- Items ----------

  type Key = Bytes

  datatype Item = Item(key: Key, version: nat, val: Bytes, isDeleted: bool, isGet: bool)

  /** The zero item that stands for "nothing found". */
  const NO_ITEM := Item([], 0, [], false, false)

  /** `byKeys`. */
  predicate Before(a: Item, b: Item) {
    Less(a.key, b.key) || (a.key == b.key && a.version < b.version)
  }

  predicate SameSlot(a: Item, b: Item) { a.key == b.key && a.version == b.version }

  lemma BeforeTransitive(a: Item, b: Item, c: Item)
    requires Before(a, b) && Before(b, c)
    ensures Before(a, c)
  {
    if Less(a.key, b.key) && Less(b.key, c.key) {
      LessTransitive(a.key, b.key, c.key);
    }
  }

  lemma BeforeTotal(a: Item, b: Item)
    ensures SameSlot(a, b) || Before(a, b) || Before(b, a)
    ensures Before(a, b) ==> !Before(b, a) && !SameSlot(a, b)
  {
    LessTotal(a.key, b.key);
    LessIrreflexive(a.key);
    if Less(a.key, b.key) {
      LessAsymmetric(a.key, b.key);
    }
  }

  // ---------- The tree ----------

  type Tree = seq<Item>

  ghost predicate Sorted(t: Tree) {
    forall i, j :: 0 <= i < j < |t| ==> Before(t[i], t[j])
  }

  /** `Set`: inserts an item, or replaces the one with the same key and version. */
  function Insert(t: Tree, x: Item): Tree {
    if t == [] then [x]
    else
      var last := t[|t| - 1];
      if Before(last, x) then t + [x]
      else if SameSlot(last, x) then t[..|t| - 1] + [x]
      else Insert(t[..|t| - 1], x) + [last]
  }

  /** `Descend` from a key and version, stopping at the first item: the newest one of the key, if it is of the key. */
  function Lookup(t: Tree, k: Key, v: nat): Item {
    if t == [] then NO_ITEM
    else
      var last := t[|t| - 1];
      if Before(Item(k, v, [], false, false), last) then Lookup(t[..|t| - 1], k, v)
      else if last.key == k then last
      else NO_ITEM
  }

  lemma {:induction false} InsertIsSorted(t: Tree, x: Item)
    requires Sorted(t)
    ensures Sorted(Insert(t, x))
    ensures forall y :: y in Insert(t, x) <==> y == x || (y in t && !SameSlot(y, x))
  {
    if t != [] {
      var init, last := t[..|t| - 1], t[|t| - 1];
      BeforeTotal(last, x);
      assert t == init + [last];
      if Before(last, x) {
        forall i | 0 <= i < |t| ensures Before(t[i], x) && !SameSlot(t[i], x) {
          if i < |init| { BeforeTransitive(t[i], last, x); }
          BeforeTotal(t[i], x);
        }
      } else if SameSlot(last, x) {
        forall i | 0 <= i < |init| ensures Before(init[i], x) && !SameSlot(init[i], x) {
          BeforeTotal(init[i], x);
        }
      } else {
        InsertIsSorted(init, x);
        var r := Insert(init, x);
        forall i | 0 <= i < |r| ensures Before(r[i], last) {
          assert r[i] in r;
          if r[i] != x {
            assert r[i] in init;
          }
        }
      }
    }
  }

  /** What a read finds: the newest item of the key that is not newer than the version, if there is one. */
  ghost predicate IsNewest(t: Tree, k: Key, v: nat, x: Item) {
    && x in t && x.key == k && x.version <= v
    && forall y :: y in t && y.key == k && y.version <= v ==> y.version <= x.version
  }

  lemma {:induction false} LookupIsNewest(t: Tree, k: Key, v: nat)
    requires Sorted(t)
    ensures
      var x := Lookup(t, k, v);
      IsNewest(t, k, v, x) || (x == NO_ITEM && forall y :: y in t ==> !(y.key == k && y.version <= v))
  {
    if t != [] {
      var init, last := t[..|t| - 1], t[|t| - 1];
      var pivot := Item(k, v, [], false, false);
      assert t == init + [last];
      BeforeTotal(pivot, last);
      if Before(pivot, last) {
        LookupIsNewest(init, k, v);
        assert !(last.key == k && last.version <= v) by { LessIrreflexive(k); }
      } else {
        forall i | 0 <= i < |init| ensures init[i].key == k ==> last.key == k && init[i].version < last.version {
          assert Before(init[i], last);
          if init[i].key == k && last.key != k {
            LessAsymmetric(k, last.key);
          }
          LessIrreflexive(k);
        }
      }
    }
  }

  /** Two items of one key that are both newest are one item. */
  lemma NewestUnique(t: Tree, k: Key, v: nat, x: Item, y: Item)
    requires Sorted(t) && IsNewest(t, k, v, x) && IsNewest(t, k, v, y)
    ensures x == y
  {
    SlotUnique(t, x, y);
  }

  lemma SlotUnique(t: Tree, x: Item, y: Item)
    requires Sorted(t) && x in t && y in t && SameSlot(x, y)
    ensures x == y
  {
    var i, j :| 0 <= i < |t| && 0 <= j < |t| && t[i] == x && t[j] == y;
    if i < j {
      BeforeTotal(x, y);
    } else if j < i {
      BeforeTotal(y, x);
    }
  }

  lemma LookupIs(t: Tree, k: Key, v: nat, x: Item)
    requires Sorted(t) && IsNewest(t, k, v, x) && k != []
    ensures Lookup(t, k, v) == x
  {
    LookupIsNewest(t, k, v);
    NewestUnique(t, k, v, x, if Lookup(t, k, v) == NO_ITEM then x else Lookup(t, k, v));
  }

  lemma LookupNothing(t: Tree, k: Key, v: nat)
    requires Sorted(t) && k != [] && forall y :: y in t ==> !(y.key == k && y.version <= v)
    ensures Lookup(t, k, v) == NO_ITEM
  {
    LookupIsNewest(t, k, v);
  }

  /** A lookup depends only on the items of its key that are not newer than its version. */
  lemma LookupSame(t: Tree, u: Tree, k: Key, v: nat, w: nat)
    requires Sorted(t) && Sorted(u) && k != []
    requires forall y: Item :: y.key == k ==> ((y in t && y.version <= v) <==> (y in u && y.version <= w))
    ensures Lookup(t, k, v) == Lookup(u, k, w)
  {
    LookupIsNewest(t, k, v);
    LookupIsNewest(u, k, w);
    var x := Lookup(t, k, v);
    if x != NO_ITEM {
      assert IsNewest(u, k, w, x);
      LookupIs(u, k, w, x);
    }
  }

  lemma LookupInserted(t: Tree, x: Item, v: nat)
    requires Sorted(t) && x.key != [] && x.version <= v
    requires forall y :: y in t && y.key == x.key ==> y.version <= x.version
    ensures Lookup(Insert(t, x), x.key, v) == x
  {
    InsertIsSorted(t, x);
    assert IsNewest(Insert(t, x), x.key, v, x);
    LookupIs(Insert(t, x), x.key, v, x);
  }

  lemma LookupOther(t: Tree, x: Item, k: Key, v: nat)
    requires Sorted(t) && k != [] && k != x.key
    ensures Lookup(Insert(t, x), k, v) == Lookup(t, k, v)
  {
    InsertIsSorted(t, x);
    LookupSame(Insert(t, x), t, k, v, v);
  }

  // ---------- The store as a list of maps ----------

  type Map = map<Key, Bytes>

  function AsOption(x: Item): Option<Bytes> {
    if x.key == [] || x.isDeleted then None else Some(x.val)
  }

  function Read(t: Tree, k: Key, v: nat): Option<Bytes> { AsOption(Lookup(t, k, v)) }

  function Find(m: Map, k: Key): Option<Bytes> { if k in m then Some(m[k]) else None }

  ghost predicate ValidTree(t: Tree, version: nat) {
    && Sorted(t)
    && forall x :: x in t ==> x.key != [] && 1 <= x.version <= version && !x.isGet
  }

  /** Reading at version w, from `low` on, is reading the map that held after the first w commits. */
  ghost predicate Refines(t: Tree, version: nat, low: nat, hist: seq<Map>) {
    && ValidTree(t, version) && |hist| == version + 1
    && (forall w :: 0 <= w <= version ==> [] !in hist[w])
    && forall k, w :: low <= w <= version && k != [] ==> Read(t, k, w) == Find(hist[w], k)
  }

  // ---------- Writing a new version ----------

  /** The newest write of a key among recorded operations, which are in commit order. */
  function LastWrite(ops: seq<Item>, k: Key): Item {
    if ops == [] then NO_ITEM
    else if !ops[|ops| - 1].isGet && ops[|ops| - 1].key == k then ops[|ops| - 1]
    else LastWrite(ops[..|ops| - 1], k)
  }

  /** The commit loop: every recorded write is stored under the new version. */
  function WriteAll(t: Tree, ops: seq<Item>, v: nat): Tree {
    if ops == [] then t
    else
      var x := ops[|ops| - 1];
      var rest := WriteAll(t, ops[..|ops| - 1], v);
      if x.isGet then rest else Insert(rest, x.(version := v))
  }

  lemma {:induction false} WriteAllValid(t: Tree, ops: seq<Item>, v: nat)
    requires ValidTree(t, v) && v >= 1 && forall x :: x in ops && !x.isGet ==> x.key != []
    ensures ValidTree(WriteAll(t, ops, v), v)
  {
    if ops != [] {
      var init, x := ops[..|ops| - 1], ops[|ops| - 1];
      WriteAllValid(t, init, v);
      if !x.isGet {
        InsertIsSorted(WriteAll(t, init, v), x.(version := v));
      }
    }
  }

  /** Reads below the new version are unchanged; at it, a key reads as its last write, or else as before. */
  lemma {:induction false} WriteAllReads(t: Tree, ops: seq<Item>, v: nat, k: Key, w: nat)
    requires ValidTree(t, v) && v >= 1 && k != [] && forall x :: x in ops && !x.isGet ==> x.key != []
    requires forall x :: x in t ==> x.version < v
    ensures Lookup(WriteAll(t, ops, v), k, w)
            == if w < v || LastWrite(ops, k) == NO_ITEM then Lookup(t, k, w) else LastWrite(ops, k).(version := v)
  {
    if ops != [] {
      var init, x := ops[..|ops| - 1], ops[|ops| - 1];
      WriteAllReads(t, init, v, k, w);
      if !x.isGet {
        WriteAllValid(t, init, v);
        var rest, y := WriteAll(t, init, v), x.(version := v);
        InsertIsSorted(rest, y);
        if x.key == k && w >= v {
          LookupIs(Insert(rest, y), k, w, y);
        } else {
          LookupSame(Insert(rest, y), rest, k, w, w);
        }
      }
    }
  }

  // ---------- What a commit adds ----------

  /** The items that a commit stores under version v. */
  ghost function NewItems(ops: seq<Item>, v: nat): set<Item> { set x | x in ops && !x.isGet :: x.(version := v) }

  /** No key is written twice. */
  ghost predicate DistinctWrites(ops: seq<Item>) {
    forall i, j :: 0 <= i < j < |ops| && !ops[i].isGet && !ops[j].isGet ==> ops[i].key != ops[j].key
  }

  lemma NewItemsOfLast(init: seq<Item>, x: Item, v: nat)
    ensures NewItems(init + [x], v) == NewItems(init, v) + if x.isGet then {} else {x.(version := v)}
  {
    forall y | y in NewItems(init, v) ensures y in NewItems(init + [x], v) {
      var z :| z in init && !z.isGet && z.(version := v) == y;
      assert z in init + [x];
    }
    assert x in init + [x];
  }

  lemma NewKeyIsOther(init: seq<Item>, x: Item, v: nat, y: Item)
    requires DistinctWrites(init + [x]) && !x.isGet && y in NewItems(init, v)
    ensures y.key != x.key && y.version == v
  {
    var z :| z in init && !z.isGet && z.(version := v) == y;
    var i :| 0 <= i < |init| && init[i] == z;
    assert (init + [x])[i].key != (init + [x])[|init|].key;
  }

  lemma {:induction false} WriteAllAdds(t: Tree, ops: seq<Item>, v: nat, y: Item)
    requires Sorted(t) && DistinctWrites(ops) && forall x :: x in t ==> x.version < v
    ensures Sorted(WriteAll(t, ops, v)) && (y in WriteAll(t, ops, v) <==> y in t || y in NewItems(ops, v))
  {
    if ops != [] {
      var init, x := ops[..|ops| - 1], ops[|ops| - 1];
      assert ops == init + [x];
      WriteAllAdds(t, init, v, y);
      NewItemsOfLast(init, x, v);
      if !x.isGet {
        InsertIsSorted(WriteAll(t, init, v), x.(version := v));
        if y in NewItems(init, v) {
          NewKeyIsOther(init, x, v, y);
        }
      }
    }
  }

  lemma WriteAllKeepsSubset(t: Tree, u: Tree, ops: seq<Item>, v: nat, y: Item)
    requires Sorted(t) && Sorted(u) && DistinctWrites(ops) && (y in t ==> y in u)
    requires (forall x :: x in t ==> x.version < v) && (forall x :: x in u ==> x.version < v)
    ensures y in WriteAll(t, ops, v) ==> y in WriteAll(u, ops, v)
  {
    WriteAllAdds(t, ops, v, y);
    WriteAllAdds(u, ops, v, y);
  }
}
