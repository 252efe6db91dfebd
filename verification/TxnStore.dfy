/**
 The multi-version store while commits and batches are still storing their items. A writer first takes a version
 and then stores its items one at a time, and a batch does so without the commit lock
 (datastore/memory/memory.go, datastore/memory/batch.go), so versions are taken and filled in any order.
 */
module TxnStore {
  import opened Memory
  import opened Purge
  import opened Transactions

  /**
   `values` and `version` are the store. The rest is history: `ever` has every item of every version taken, `promised`
   those of them that are not purged, `pending` those still to be stored; `low` is the highest bound purged to, and
   `hist` has the map that each version stands for.
   */
  datatype Store = Store(
    values: Tree, version: nat, ever: Tree, promised: Tree, pending: set<Item>, low: nat, hist: seq<Map>)

  /** A writer takes the next version; its items are to be stored. */
  ghost function Take(d: Store, ops: seq<Item>): Store
    requires |d.hist| == d.version + 1
  {
    d.(version := d.version + 1,
       ever := WriteAll(d.ever, ops, d.version + 1), promised := WriteAll(d.promised, ops, d.version + 1),
       pending := d.pending + NewItems(ops, d.version + 1), hist := d.hist + [Overlay(d.hist[d.version], ops)])
  }

  function StoreItem(d: Store, x: Item): Store { d.(values := Insert(d.values, x), pending := d.pending - {x}) }

  function StartPurge(d: Store, bound: nat): Store { if d.low < bound then d.(low := bound) else d }

  function PurgeItem(d: Store, x: Item): Store {
    d.(values := Remove(d.values, x), promised := Remove(d.promised, x))
  }

  // ---------- The invariant ----------

  ghost predicate StoreRight(d: Store) {
    && Refines(d.promised, d.version, d.low, d.hist) && d.low <= d.version
    && Sorted(d.values)
    && (forall x :: x in d.values <==> x in d.promised && x !in d.pending)
    && (forall x :: x in d.pending ==> x in d.promised)
    && Refines(d.ever, d.version, 0, d.hist) && (forall x :: x in d.promised ==> x in d.ever)
  }

  /** No writer of version w or an earlier one is still storing. */
  ghost predicate Settled(d: Store, w: nat) { forall x :: x in d.pending ==> w < x.version }

  ghost predicate SameReads(t: Tree, u: Tree, w: nat) {
    forall k :: k != [] ==> Lookup(t, k, w) == Lookup(u, k, w)
  }

  lemma StoredIsValid(d: Store)
    requires StoreRight(d)
    ensures ValidTree(d.values, d.version)
  {
  }

  /** A read at a version is what the version stands for exactly when the item it should find is stored. */
  lemma ReadsArePromisedExactly(d: Store, k: Key, w: nat)
    requires StoreRight(d) && k != []
    ensures Lookup(d.values, k, w) == Lookup(d.promised, k, w) <==> Lookup(d.promised, k, w) !in d.pending
  {
    LookupIsNewest(d.promised, k, w);
    LookupIsNewest(d.values, k, w);
    var x := Lookup(d.promised, k, w);
    if x !in d.pending {
      if x == NO_ITEM {
        LookupNothing(d.values, k, w);
      } else {
        assert IsNewest(d.values, k, w, x);
        LookupIs(d.values, k, w, x);
      }
    }
  }

  /** A read at any version, purged or not, finds what it should exactly when that is nothing or is stored. */
  lemma ReadsAreRightExactly(d: Store, k: Key, w: nat)
    requires StoreRight(d) && k != []
    ensures Lookup(d.values, k, w) == Lookup(d.ever, k, w)
            <==> Lookup(d.ever, k, w) == NO_ITEM || Lookup(d.ever, k, w) in d.values
    ensures w <= d.version ==> Read(d.ever, k, w) == Find(d.hist[w], k)
  {
    LookupIsNewest(d.ever, k, w);
    LookupIsNewest(d.values, k, w);
    var x := Lookup(d.ever, k, w);
    if x == NO_ITEM {
      LookupNothing(d.values, k, w);
    } else if x in d.values {
      assert IsNewest(d.values, k, w, x);
      LookupIs(d.values, k, w, x);
    }
  }

  lemma SettledReads(d: Store, k: Key, w: nat)
    requires StoreRight(d) && Settled(d, w) && k != []
    ensures Lookup(d.values, k, w) == Lookup(d.promised, k, w)
    ensures d.low <= w <= d.version ==> Read(d.values, k, w) == Find(d.hist[w], k)
  {
    LookupIsNewest(d.promised, k, w);
    ReadsArePromisedExactly(d, k, w);
  }

  // ---------- Every step keeps it ----------

  lemma TakeItems(d: Store, ops: seq<Item>, y: Item)
    requires StoreRight(d) && DistinctWrites(ops)
    ensures y in d.values <==> y in Take(d, ops).promised && y !in Take(d, ops).pending
    ensures y in Take(d, ops).pending ==> y in Take(d, ops).promised
    ensures y in Take(d, ops).pending ==> y in d.pending || y.version == d.version + 1
  {
    WriteAllAdds(d.promised, ops, d.version + 1, y);
  }

  lemma TakeItemsEver(d: Store, ops: seq<Item>, y: Item)
    requires StoreRight(d) && DistinctWrites(ops)
    ensures y in Take(d, ops).promised ==> y in Take(d, ops).ever
  {
    WriteAllKeepsSubset(d.promised, d.ever, ops, d.version + 1, y);
  }

  lemma TakeRefines(d: Store, ops: seq<Item>)
    requires StoreRight(d) && forall x :: x in ops && !x.isGet ==> x.key != []
    ensures Refines(Take(d, ops).promised, d.version + 1, d.low, Take(d, ops).hist)
  {
    CommitRefines(d.promised, d.version, d.low, d.hist, ops);
  }

  lemma TakeRefinesEver(d: Store, ops: seq<Item>)
    requires StoreRight(d) && forall x :: x in ops && !x.isGet ==> x.key != []
    ensures Refines(Take(d, ops).ever, d.version + 1, 0, Take(d, ops).hist)
  {
    CommitRefines(d.ever, d.version, 0, d.hist, ops);
  }

  lemma TakeKeepsRight(d: Store, ops: seq<Item>)
    requires StoreRight(d) && DistinctWrites(ops) && forall x :: x in ops && !x.isGet ==> x.key != []
    ensures StoreRight(Take(d, ops))
  {
    TakeRefines(d, ops);
    TakeRefinesEver(d, ops);
    forall y
      ensures y in d.values <==> y in Take(d, ops).promised && y !in Take(d, ops).pending
      ensures y in Take(d, ops).pending ==> y in Take(d, ops).promised
      ensures y in Take(d, ops).promised ==> y in Take(d, ops).ever
    {
      TakeItems(d, ops, y);
      TakeItemsEver(d, ops, y);
    }
  }

  lemma TakeKeepsSettled(d: Store, ops: seq<Item>, w: nat)
    requires StoreRight(d) && DistinctWrites(ops) && Settled(d, w) && w <= d.version
    ensures Settled(Take(d, ops), w)
  {
    forall y | y in Take(d, ops).pending ensures w < y.version { TakeItems(d, ops, y); }
  }

  lemma StoreItemKeepsRight(d: Store, x: Item)
    requires StoreRight(d) && x in d.pending
    ensures StoreRight(StoreItem(d, x))
  {
    InsertIsSorted(d.values, x);
    forall y | y in d.values && SameSlot(y, x) ensures y == x { SlotUnique(d.promised, y, x); }
  }

  lemma StoreItemReads(d: Store, x: Item, w: nat)
    requires StoreRight(d) && x in d.pending && Settled(d, w)
    ensures SameReads(StoreItem(d, x).values, d.values, w)
  {
    InsertIsSorted(d.values, x);
    forall k | k != [] ensures Lookup(StoreItem(d, x).values, k, w) == Lookup(d.values, k, w) {
      LookupSame(StoreItem(d, x).values, d.values, k, w, w);
    }
  }

  lemma PurgeItemReads(d: Store, x: Item, w: nat)
    requires StoreRight(d) && x in d.values && Shadowed(d.values, x, d.low) && d.low <= w
    ensures SameReads(Remove(d.values, x), d.values, w) && SameReads(Remove(d.promised, x), d.promised, w)
  {
    ShadowedBefore(d.promised, d.values, x, d.low);
    forall k | k != []
      ensures Lookup(Remove(d.values, x), k, w) == Lookup(d.values, k, w)
      ensures Lookup(Remove(d.promised, x), k, w) == Lookup(d.promised, k, w)
    {
      RemoveIsInvisible(d.values, d.low, x, k, w);
      RemoveIsInvisible(d.promised, d.low, x, k, w);
    }
  }

  lemma PurgeItemItems(d: Store, x: Item)
    requires StoreRight(d) && x in d.values
    ensures
      var d' := PurgeItem(d, x);
      && ValidTree(d'.promised, d'.version) && Sorted(d'.values)
      && (forall y :: y in d'.values <==> y in d'.promised && y !in d'.pending)
      && (forall y :: y in d'.pending ==> y in d'.promised) && (forall y :: y in d'.promised ==> y in d'.ever)
  {
    RemoveIsSorted(d.values, x);
    RemoveIsSorted(d.promised, x);
    forall y | y in d.promised && SameSlot(y, x) ensures y == x { SlotUnique(d.promised, y, x); }
  }

  lemma PurgeItemKeepsRight(d: Store, x: Item)
    requires StoreRight(d) && x in d.values && Shadowed(d.values, x, d.low)
    ensures StoreRight(PurgeItem(d, x))
  {
    PurgeItemItems(d, x);
    forall k, w | d.low <= w <= d.version && k != []
      ensures Read(Remove(d.promised, x), k, w) == Find(d.hist[w], k)
    {
      PurgeItemReads(d, x, w);
      assert Read(d.promised, k, w) == Find(d.hist[w], k);
    }
  }
}
