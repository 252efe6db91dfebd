/** Purging old versions (datastore/memory/memory.go): nothing that can still be read at or above the bound is lost. */
module Purge {
  import opened ByteOrder
  import opened Memory

  const MAX_DELETIONS := 1000

  /** Some newer item of the same key is still not above the bound. */
  ghost predicate Shadowed(t: Tree, x: Item, bound: nat) {
    exists y :: y in t && y.key == x.key && x.version < y.version <= bound
  }

  /** `u` is `t` without exactly its shadowed items. */
  ghost predicate IsPurged(t: Tree, bound: nat, u: Tree) {
    Sorted(u) && forall x :: x in u <==> x in t && !Shadowed(t, x, bound)
  }

  /** The bound of a purge: the oldest registered snapshot, or a version that has been reached. */
  ghost predicate IsPurgeBound(version: nat, inFlight: set<nat>, v: nat) {
    if inFlight == {} then v <= version else v in inFlight && forall u :: u in inFlight ==> v <= u
  }

  /** `Delete`: removes the item with this key and version. */
  function Remove(t: Tree, x: Item): Tree {
    if t == [] then [] else Remove(t[..|t| - 1], x) + (if SameSlot(t[|t| - 1], x) then [] else [t[|t| - 1]])
  }

  lemma {:induction false} RemoveIsSorted(t: Tree, x: Item)
    requires Sorted(t)
    ensures Sorted(Remove(t, x))
    ensures forall y :: y in Remove(t, x) <==> y in t && !SameSlot(y, x)
    ensures |Remove(t, x)| <= |t| && (x in t ==> |Remove(t, x)| < |t|)
  {
    if t != [] {
      var init, last := t[..|t| - 1], t[|t| - 1];
      RemoveIsSorted(init, x);
      assert t == init + [last];
      forall i | 0 <= i < |Remove(init, x)| ensures Before(Remove(init, x)[i], last) {
        assert Remove(init, x)[i] in init;
      }
    }
  }

  /** A purge is invisible to every read at or above its bound, and leaves one item per key at or below it. */
  lemma PurgeIsInvisible(t: Tree, bound: nat, u: Tree, k: Key, w: nat)
    requires Sorted(t) && IsPurged(t, bound, u) && k != [] && bound <= w
    ensures Lookup(u, k, w) == Lookup(t, k, w)
    ensures forall x, y :: x in u && y in u && x.key == y.key && x.version <= bound && y.version <= bound ==> x == y
  {
    LookupIsNewest(t, k, w);
    var x := Lookup(t, k, w);
    if x != NO_ITEM {
      assert IsNewest(u, k, w, x);
      LookupIs(u, k, w, x);
    } else {
      LookupNothing(u, k, w);
    }
    forall x, y | x in u && y in u && x.key == y.key && x.version <= bound && y.version <= bound ensures x == y {
      assert x in t && y in t;
      assert !(x.version < y.version) && !(y.version < x.version);
      SlotUnique(t, x, y);
    }
  }

  /** Removing one shadowed item is invisible to every read at or above the bound. */
  lemma RemoveIsInvisible(t: Tree, bound: nat, x: Item, k: Key, w: nat)
    requires Sorted(t) && x in t && Shadowed(t, x, bound) && k != [] && bound <= w
    ensures Lookup(Remove(t, x), k, w) == Lookup(t, k, w)
  {
    RemoveIsSorted(t, x);
    LookupIsNewest(t, k, w);
    var u, y := Remove(t, x), Lookup(t, k, w);
    if y != NO_ITEM {
      assert IsNewest(u, k, w, y);
      LookupIs(u, k, w, y);
    } else {
      LookupNothing(u, k, w);
    }
  }

  /** The item after position a has the same key and is not above the bound. */
  predicate Due(t: Tree, bound: nat, a: nat)
    requires a + 1 < |t|
  {
    t[a].key == t[a + 1].key && t[a + 1].version <= bound
  }

  /** What one scan has found: `item` is where it stands, and the older neighbours seen so far are collected. */
  ghost predicate Scanned(t: Tree, bound: nat, idx: nat, item: Item, found: seq<Item>) {
    && 0 < idx <= |t|
    && (exists p :: 0 <= p < idx && t[p] == item)
    && (idx == 1 || t[idx - 1].version <= bound ==> item == t[idx - 1])
    && (forall x :: x in found ==> x in t && Shadowed(t, x, bound))
    && (forall a: nat {:trigger Due(t, bound, a)} :: a + 1 < idx && Due(t, bound, a) ==> t[a] in found)
  }

  lemma ScanStep(t: Tree, bound: nat, idx: nat, item: Item, found: seq<Item>)
    requires Sorted(t) && idx < |t| && Scanned(t, bound, idx, item, found)
    ensures
      var next := t[idx];
      if next.version > bound then Scanned(t, bound, idx + 1, item, found)
      else Scanned(t, bound, idx + 1, next, if item.key == next.key then found + [item] else found)
  {
    if t[idx].version <= bound {
      ScanMoves(t, bound, idx, item, found);
    }
  }

  lemma ScanMoves(t: Tree, bound: nat, idx: nat, item: Item, found: seq<Item>)
    requires Sorted(t) && idx < |t| && Scanned(t, bound, idx, item, found) && t[idx].version <= bound
    ensures Scanned(t, bound, idx + 1, t[idx], if item.key == t[idx].key then found + [item] else found)
  {
    var next := t[idx];
    var p :| 0 <= p < idx && t[p] == item;
    ScanFinds(t, bound, idx, p);
    if t[idx - 1].key == next.key {
      ScanFinds(t, bound, idx, idx - 1);
      assert item == t[idx - 1];
    }
    assert t[idx] == next;
    var found' := if item.key == next.key then found + [item] else found;
    assert forall x :: x in found' ==> x in found || x == item;
    assert forall x :: x in found ==> x in found';
  }

  lemma ScanFinds(t: Tree, bound: nat, idx: nat, p: nat)
    requires Sorted(t) && p < idx < |t| && t[idx].version <= bound
    ensures t[p].key == t[idx].key ==> t[p].version < t[idx].version && Shadowed(t, t[p], bound)
  {
    assert Before(t[p], t[idx]);
    LessIrreflexive(t[idx].key);
    assert t[idx] in t;
  }

  /** Neighbours of one key bracket only items of that key. */
  lemma SameKeyBetween(a: Item, b: Item, c: Item)
    requires Before(a, b) && (b == c || Before(b, c)) && a.key == c.key
    ensures b.key == a.key && b.version <= c.version
  {
    LessIrreflexive(a.key);
    if Less(a.key, b.key) && b != c {
      if Less(b.key, c.key) {
        LessTransitive(a.key, b.key, c.key);
      }
    }
  }

  lemma DueBelow(t: Tree, bound: nat, i: nat, j: nat)
    requires Sorted(t) && i < j < |t| && t[i].key == t[j].key && t[j].version <= bound
    ensures Due(t, bound, i)
  {
    SameKeyBetween(t[i], t[i + 1], t[j]);
  }

  lemma NothingLeft(t: Tree, bound: nat, item: Item)
    requires Sorted(t) && Scanned(t, bound, |t|, item, [])
    ensures forall x :: x in t ==> !Shadowed(t, x, bound)
  {
    forall x | x in t ensures !Shadowed(t, x, bound) {
      if Shadowed(t, x, bound) {
        var y :| y in t && y.key == x.key && x.version < y.version <= bound;
        var i, j :| 0 <= i < |t| && 0 <= j < |t| && t[i] == x && t[j] == y;
        if j < i {
          BeforeTotal(y, x);
        }
        DueBelow(t, bound, i, j);
      }
    }
  }

  /** Dropping items that are shadowed keeps what is shadowed below. */
  lemma ShadowedBefore(t: Tree, u: Tree, x: Item, bound: nat)
    requires (forall y :: y in u ==> y in t) && Shadowed(u, x, bound)
    ensures Shadowed(t, x, bound)
  {
  }

  /** The newest item of a key at or below the bound is never shadowed, so an item is shadowed by one that stays. */
  lemma {:induction false} ShadowStays(t: Tree, u: Tree, x: Item, bound: nat)
    requires forall y :: y in t && y !in u ==> Shadowed(t, y, bound)
    requires Shadowed(t, x, bound)
    ensures Shadowed(u, x, bound)
    decreases bound - x.version
  {
    var y :| y in t && y.key == x.key && x.version < y.version <= bound;
    if y !in u {
      ShadowStays(t, u, y, bound);
    }
  }
}
