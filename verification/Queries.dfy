/**
 The transaction query (datastore/memory/txn.go): one pass over the stored items and the recorded operations,
 both in key order. It sees the latest versions, so it answers what reading every key one by one would exactly when
 the keys that the transaction has not recorded are as in its snapshot.
 */
module Queries {
  import opened Options
  import opened ByteOrder
  import opened Memory
  import opened Transactions

  datatype Entry = Entry(key: Key, val: Bytes)

  /** What a query sees of a key: what the transaction has recorded of it, or else the latest version. */
  function Sees(values: Tree, version: nat, t: Txn, k: Key): Option<Bytes> {
    if OwnItem(t, k).key != [] then AsOption(OwnItem(t, k)) else Read(values, k, version)
  }

  ghost predicate KeysAscend(re: seq<Entry>) {
    forall i, j :: 0 <= i < j < |re| ==> Less(re[i].key, re[j].key)
  }

  /** `re` holds what the query sees for the keys in `keys`, and nothing else. */
  ghost predicate Answers(re: seq<Entry>, values: Tree, version: nat, t: Txn, keys: iset<Key>) {
    forall e :: e in re <==> e.key in keys && e.key != [] && Sees(values, version, t, e.key) == Some(e.val)
  }

  /** The key is at most that of the last of the first i stored items. */
  ghost predicate Passed(values: Tree, i: nat, k: Key)
    requires i <= |values|
  {
    i > 0 && !Less(values[i - 1].key, k)
  }

  ghost function UpTo(values: Tree, i: nat): iset<Key>
    requires i <= |values|
  {
    iset k: Key | Passed(values, i, k)
  }

  /** The keys dealt with: those up to the i-th stored item, and those of the first j operations, but for one. */
  ghost function Dealt(values: Tree, i: nat, ops: Tree, j: nat, except: Key): iset<Key>
    requires i <= |values| && j <= |ops|
  {
    UpTo(values, i) + iset a | 0 <= a < j && ops[a].key != except :: ops[a].key
  }

  lemma AddKey(re: seq<Entry>, values: Tree, version: nat, t: Txn, keys: iset<Key>, k: Key)
    requires KeysAscend(re) && Answers(re, values, version, t, keys) && k != []
    requires forall j :: j in keys ==> Less(j, k)
    ensures
      var re' := if Sees(values, version, t, k) == None then re else re + [Entry(k, Sees(values, version, t, k).value)];
      KeysAscend(re') && Answers(re', values, version, t, keys + iset{k})
  {
    var re' := if Sees(values, version, t, k) == None then re else re + [Entry(k, Sees(values, version, t, k).value)];
    forall i | 0 <= i < |re| ensures Less(re[i].key, k) {
      assert re[i] in re;
    }
    forall e
      ensures e in re' <==> e.key in keys + iset{k} && e.key != [] && Sees(values, version, t, e.key) == Some(e.val)
    {
      assert e in re <==> e.key in keys && e.key != [] && Sees(values, version, t, e.key) == Some(e.val);
      LessIrreflexive(k);
    }
  }

  lemma MoreKeys(re: seq<Entry>, values: Tree, version: nat, t: Txn, keys: iset<Key>, more: iset<Key>)
    requires Answers(re, values, version, t, keys) && keys <= more
    requires forall k :: k in more && k !in keys && k != [] ==> Sees(values, version, t, k) == None
    ensures Answers(re, values, version, t, more)
  {
  }

  /** The two inputs of a query: a valid tree, and a transaction that began at its latest version or an earlier one. */
  ghost predicate Fits(values: Tree, version: nat, t: Txn) {
    ValidTree(values, version) && t.snapshot <= version && OpsRight(values, t)
  }

  lemma NotStored(values: Tree, version: nat, t: Txn, k: Key)
    requires Fits(values, version, t) && k != [] && forall x :: x in values ==> x.key != k
    ensures Lookup(values, k, t.snapshot) == NO_ITEM == Lookup(values, k, version)
    ensures Recorded(t, k) ==> !OwnItem(t, k).isGet && OwnItem(t, k).version == t.snapshot + 1
    ensures Sees(values, version, t, k) == if Recorded(t, k) then AsOption(OwnItem(t, k)) else None
  {
    LookupNothing(values, k, t.snapshot);
    LookupNothing(values, k, version);
    OwnItemIs(values, t, k);
  }

  /** A group boundary: the items from i on have greater keys than those before. */
  ghost predicate Boundary(values: Tree, i: nat) {
    i <= |values| && (0 < i < |values| ==> Less(values[i - 1].key, values[i].key))
  }

  lemma KeysSplit(values: Tree, i: nat)
    requires Sorted(values) && Boundary(values, i)
    ensures forall a :: 0 <= a < i ==> values[a].key in UpTo(values, i)
    ensures forall b :: i <= b < |values| ==> values[b].key !in UpTo(values, i)
  {
    forall a | 0 <= a < i ensures values[a].key in UpTo(values, i) {
      LessIrreflexive(values[a].key);
      if a < i - 1 {
        assert Before(values[a], values[i - 1]);
        if Less(values[a].key, values[i - 1].key) {
          LessAsymmetric(values[a].key, values[i - 1].key);
        }
      }
    }
    forall b | i <= b < |values| ensures values[b].key !in UpTo(values, i) {
      if i > 0 && i < b {
        assert Before(values[i], values[b]);
        if Less(values[i].key, values[b].key) {
          LessTransitive(values[i - 1].key, values[i].key, values[b].key);
        }
      }
    }
  }

  /** Between two neighbouring stored keys, or above the last one, only operations show anything. */
  lemma InGap(values: Tree, version: nat, t: Txn, i: nat, k: Key)
    requires Fits(values, version, t) && Boundary(values, i) && k != [] && k !in UpTo(values, i)
    requires i < |values| ==> Less(k, values[i].key)
    ensures forall x :: x in values ==> x.key != k
  {
    KeysSplit(values, i);
    forall x | x in values ensures x.key != k {
      var a :| 0 <= a < |values| && values[a] == x;
      if i < a {
        assert Before(values[i], values[a]);
        LessIrreflexive(k);
        if x.key == k && Less(values[i].key, k) {
          LessAsymmetric(k, values[i].key);
        }
      } else if a == i {
        LessIrreflexive(k);
      }
    }
  }

  /** An operation that lies in a gap shows what it wrote, and is the only one of its key. */
  lemma OpInGap(values: Tree, version: nat, t: Txn, i: nat, j: nat)
    requires Fits(values, version, t) && Boundary(values, i) && j < |t.ops| && t.ops[j].key !in UpTo(values, i)
    requires i < |values| ==> Less(t.ops[j].key, values[i].key)
    ensures t.ops[j].key == [] ==> t.ops[j].isGet
    ensures t.ops[j].key != [] ==> !t.ops[j].isGet && Sees(values, version, t, t.ops[j].key) == AsOption(t.ops[j])
    ensures t.ops[j].key != [] ==> forall a :: 0 <= a < j ==> Less(t.ops[a].key, t.ops[j].key)
  {
    var x := t.ops[j];
    assert x in t.ops;
    if x.key != [] {
      InGap(values, version, t, i, x.key);
      NotStored(values, version, t, x.key);
      OwnItemIs(values, t, x.key);
      assert Recorded(t, x.key);
      assert !x.isGet by { LookupIsNewest(values, x.key, t.snapshot); }
      SlotUnique(t.ops, x, OwnItem(t, x.key));
      forall a | 0 <= a < j ensures Less(t.ops[a].key, x.key) {
        assert Before(t.ops[a], x) && t.ops[a] in t.ops;
        if t.ops[a].key == x.key {
          assert !t.ops[a].isGet by { LookupIsNewest(values, x.key, t.snapshot); }
        }
      }
    }
  }

  /** What the operations before j leave of the stored item `stored`. */
  ghost predicate Overridden(ops: Tree, j: nat, stored: Item, item: Item)
    requires j <= |ops|
  {
    || (item == stored && forall a :: 0 <= a < j ==> ops[a].key != stored.key)
    || (item.key == stored.key && exists a :: 0 <= a < j && ops[a] == item
                                              && forall b :: a < b < j ==> ops[b].key != stored.key)
  }

  lemma OverriddenIsShown(values: Tree, version: nat, t: Txn, j: nat, stored: Item, item: Item)
    requires Fits(values, version, t) && j <= |t.ops|
    requires stored in values && Lookup(values, stored.key, version) == stored
    requires Overridden(t.ops, j, stored, item)
    requires forall b :: j <= b < |t.ops| ==> t.ops[b].key != stored.key
    ensures Sees(values, version, t, stored.key) == AsOption(item) && item.key == stored.key
  {
    OwnItemIs(values, t, stored.key);
    if Recorded(t, stored.key) {
      var x := OwnItem(t, stored.key);
      var c :| 0 <= c < |t.ops| && t.ops[c] == x;
      var a :| 0 <= a < j && t.ops[a] == item && forall b :: a < b < j ==> t.ops[b].key != stored.key;
      LastIsNewest(values, version, t, stored.key, a, c);
    }
  }

  /** Of two operations on a key, the newest is the one that no other follows. */
  lemma LastIsNewest(values: Tree, version: nat, t: Txn, k: Key, a: nat, c: nat)
    requires Fits(values, version, t) && a < |t.ops| && c < |t.ops| && t.ops[a].key == k == t.ops[c].key
    requires forall b :: a < b < |t.ops| ==> t.ops[b].key != k
    requires forall x :: x in t.ops && x.key == k ==> x.version <= t.ops[c].version
    ensures t.ops[a] == t.ops[c]
  {
    if c < a {
      assert Before(t.ops[c], t.ops[a]);
      LessIrreflexive(k);
    }
  }

  /** The last item of a key's group is what the latest version reads. */
  lemma GroupEnd(values: Tree, version: nat, t: Txn, i: nat)
    requires Fits(values, version, t) && 0 < i && Boundary(values, i)
    ensures Lookup(values, values[i - 1].key, version) == values[i - 1]
  {
    var x := values[i - 1];
    KeysSplit(values, i);
    assert x in values && x.key in UpTo(values, i);
    forall y | y in values && y.key == x.key ensures y.version <= x.version {
      var a :| 0 <= a < |values| && values[a] == y;
      if a < i - 1 {
        assert Before(y, x);
        LessIrreflexive(x.key);
      }
    }
    LookupIs(values, x.key, version, x);
  }

  /** The first i stored items and the first j operations are the ones with keys up to the same point. */
  ghost predicate InStep(values: Tree, i: nat, ops: Tree, j: nat) {
    && Boundary(values, i) && j <= |ops|
    && (forall a :: 0 <= a < j ==> Passed(values, i, ops[a].key))
    && (forall b :: j <= b < |ops| ==> !Passed(values, i, ops[b].key))
  }

  lemma PassedBelow(values: Tree, i: nat, k: Key, x: Key)
    requires i <= |values| && Passed(values, i, k) && !Passed(values, i, x)
    ensures Less(k, x)
  {
    var p := values[i - 1].key;
    LessTotal(k, p);
    if k != p {
      LessTransitive(k, p, x);
    }
  }

  lemma DealtNext(values: Tree, i: nat, ops: Tree, j: nat, except: Key)
    requires i <= |values| && j < |ops|
    ensures Dealt(values, i, ops, j + 1, except)
            == if ops[j].key == except then Dealt(values, i, ops, j, except)
               else Dealt(values, i, ops, j, except) + iset{ops[j].key}
  {
  }

  /** Passing an operation that lies in a gap. */
  lemma PassOp(re: seq<Entry>, values: Tree, version: nat, t: Txn, i: nat, j: nat, except: Key)
    requires Fits(values, version, t) && Boundary(values, i) && j < |t.ops| && (t.ops[j].key != except || except == [])
    requires forall b :: j <= b < |t.ops| ==> !Passed(values, i, t.ops[b].key)
    requires i < |values| ==> except == values[i].key && Less(t.ops[j].key, except)
    requires KeysAscend(re) && Answers(re, values, version, t, Dealt(values, i, t.ops, j, except))
    ensures
      var x := t.ops[j];
      var re' := if x.isDeleted || x.isGet then re else re + [Entry(x.key, x.val)];
      KeysAscend(re') && Answers(re', values, version, t, Dealt(values, i, t.ops, j + 1, except))
  {
    var x := t.ops[j];
    var keys := Dealt(values, i, t.ops, j, except);
    OpInGap(values, version, t, i, j);
    DealtNext(values, i, t.ops, j, except);
    if x.key == [] {
      MoreKeys(re, values, version, t, keys, Dealt(values, i, t.ops, j + 1, except));
    } else {
      forall k | k in keys ensures Less(k, x.key) {
        if Passed(values, i, k) {
          PassedBelow(values, i, k, x.key);
        }
      }
      AddKey(re, values, version, t, keys, x.key);
    }
  }

  ghost function Below(k: Key): iset<Key> { iset j: Key | Less(j, k) }

  /** Once all operations below the next stored key are passed, everything below it is answered. */
  lemma CloseGap(re: seq<Entry>, values: Tree, version: nat, t: Txn, i: nat, j: nat)
    requires Fits(values, version, t) && Boundary(values, i) && i < |values| && j <= |t.ops|
    requires forall a :: 0 <= a < j ==> Passed(values, i, t.ops[a].key) || !Less(values[i].key, t.ops[a].key)
    requires forall b :: j <= b < |t.ops| ==> Less(values[i].key, t.ops[b].key)
    requires Answers(re, values, version, t, Dealt(values, i, t.ops, j, values[i].key))
    ensures Answers(re, values, version, t, Below(values[i].key))
  {
    var k0 := values[i].key;
    var keys := Dealt(values, i, t.ops, j, k0);
    KeysSplit(values, i);
    forall k | k in keys ensures k in Below(k0) {
      if Passed(values, i, k) {
        PassedBelow(values, i, k, k0);
      } else {
        LessTotal(k, k0);
      }
    }
    forall k | k in Below(k0) && k !in keys && k != [] ensures Sees(values, version, t, k) == None {
      InGap(values, version, t, i, k);
      NotStored(values, version, t, k);
      if Recorded(t, k) {
        var a :| 0 <= a < |t.ops| && t.ops[a].key == k;
        LessIrreflexive(k0);
        if j <= a {
          LessAsymmetric(k, k0);
        }
      }
    }
    MoreKeys(re, values, version, t, keys, Below(k0));
  }

  lemma BelowAndKey(values: Tree, i: nat)
    requires 0 < i <= |values|
    ensures Below(values[i - 1].key) + iset{values[i - 1].key} == UpTo(values, i)
  {
    var k0 := values[i - 1].key;
    forall k ensures Less(k, k0) || k == k0 <==> !Less(k0, k) {
      LessTotal(k, k0);
      LessIrreflexive(k0);
      if Less(k, k0) {
        LessAsymmetric(k, k0);
      }
    }
  }

  lemma AllAnswered(re: seq<Entry>, values: Tree, version: nat, t: Txn)
    requires Fits(values, version, t) && Answers(re, values, version, t, Dealt(values, |values|, t.ops, |t.ops|, []))
    ensures forall e :: e in re <==> e.key != [] && Sees(values, version, t, e.key) == Some(e.val)
  {
    var keys := Dealt(values, |values|, t.ops, |t.ops|, []);
    forall k | k !in keys && k != [] ensures Sees(values, version, t, k) == None {
      InGap(values, version, t, |values|, k);
      NotStored(values, version, t, k);
    }
    forall e ensures e in re <==> e.key != [] && Sees(values, version, t, e.key) == Some(e.val) {
      assert e in re <==> e.key in keys && e.key != [] && Sees(values, version, t, e.key) == Some(e.val);
    }
  }

  /** The ops below or at the next stored key are passed; the others lie above it. */
  lemma OpsAbove(values: Tree, version: nat, t: Txn, k: Key, j: nat)
    requires Fits(values, version, t) && j <= |t.ops| && (j < |t.ops| ==> Less(k, t.ops[j].key))
    ensures forall b :: j <= b < |t.ops| ==> Less(k, t.ops[b].key)
  {
    forall b | j <= b < |t.ops| ensures Less(k, t.ops[b].key) {
      if j < b {
        assert Before(t.ops[j], t.ops[b]);
        if t.ops[j].key != t.ops[b].key {
          LessTransitive(k, t.ops[j].key, t.ops[b].key);
        }
      }
    }
  }

  /** Fast forward to the last version of the key at i. */
  method LastOfGroup(values: Tree, i: nat) returns (i': nat)
    requires Sorted(values) && i < |values|
    ensures i < i' && Boundary(values, i') && values[i' - 1].key == values[i].key
  {
    var item := values[i];
    i' := i + 1;
    while i' < |values| && item.key == values[i'].key
      invariant i < i' <= |values| && item == values[i' - 1] && item.key == values[i].key
    {
      item := values[i'];
      i' := i' + 1;
    }
    if i' < |values| {
      assert Before(values[i' - 1], values[i']);
    }
  }

  /** The first j operations are merged into the gap below the stored item, and into the item itself. */
  ghost predicate MergedTo(values: Tree, version: nat, t: Txn, i: nat, j: nat, stored: Item, item: Item, re: seq<Entry>)
    requires i <= |values|
  {
    && j <= |t.ops| && Overridden(t.ops, j, stored, item)
    && (forall a :: 0 <= a < j ==> Passed(values, i, t.ops[a].key) || !Less(stored.key, t.ops[a].key))
    && KeysAscend(re) && Answers(re, values, version, t, Dealt(values, i, t.ops, j, stored.key))
  }

  /** An operation on the stored key takes the place of the item. */
  lemma MergeSame(values: Tree, version: nat, t: Txn, i: nat, j: nat, stored: Item, item: Item, re: seq<Entry>)
    requires Fits(values, version, t) && i < |values| && MergedTo(values, version, t, i, j, stored, item, re)
    requires j < |t.ops| && t.ops[j].key == stored.key
    ensures MergedTo(values, version, t, i, j + 1, stored, t.ops[j], re)
  {
    LessIrreflexive(stored.key);
    DealtNext(values, i, t.ops, j, stored.key);
  }

  /** An operation below it is answered. */
  lemma MergeBelow(values: Tree, version: nat, t: Txn, i: nat, j: nat, stored: Item, item: Item, re: seq<Entry>)
    requires Fits(values, version, t) && i < |values| && Boundary(values, i) && stored.key == values[i].key
    requires MergedTo(values, version, t, i, j, stored, item, re) && j < |t.ops| && Less(t.ops[j].key, stored.key)
    requires forall b :: j <= b < |t.ops| ==> !Passed(values, i, t.ops[b].key)
    ensures
      var x := t.ops[j];
      MergedTo(values, version, t, i, j + 1, stored, item,
               if x.isDeleted || x.isGet then re else re + [Entry(x.key, x.val)])
  {
    LessIrreflexive(stored.key);
    LessAsymmetric(t.ops[j].key, stored.key);
    PassOp(re, values, version, t, i, j, stored.key);
  }

  lemma MergeFirst(values: Tree, version: nat, t: Txn, i: nat, j: nat, stored: Item, re: seq<Entry>)
    requires Fits(values, version, t) && i < |values| && InStep(values, i, t.ops, j) && stored.key == values[i].key
    requires KeysAscend(re) && Answers(re, values, version, t, UpTo(values, i))
    ensures MergedTo(values, version, t, i, j, stored, stored, re)
  {
    KeysSplit(values, i);
    assert forall a :: 0 <= a < j ==> t.ops[a].key in UpTo(values, i);
    assert Dealt(values, i, t.ops, j, stored.key) == UpTo(values, i);
  }

  /** The operations up to the key of the stored item: those on that key override it, the others are answered. */
  method MergeOps(values: Tree, ghost version: nat, t: Txn, i: nat, j: nat, stored: Item, re: seq<Entry>)
    returns (item: Item, j': nat, re': seq<Entry>)
    requires Fits(values, version, t) && i < |values| && InStep(values, i, t.ops, j) && stored.key == values[i].key
    requires KeysAscend(re) && Answers(re, values, version, t, UpTo(values, i))
    ensures j <= j' && MergedTo(values, version, t, i, j', stored, item, re')
    ensures forall b :: j' <= b < |t.ops| ==> Less(stored.key, t.ops[b].key)
  {
    item, j', re' := stored, j, re;
    MergeFirst(values, version, t, i, j, stored, re);
    while j' < |t.ops| && !Less(stored.key, t.ops[j'].key)
      invariant j <= j' && MergedTo(values, version, t, i, j', stored, item, re')
    {
      var op := t.ops[j'];
      if op.key == stored.key {
        MergeSame(values, version, t, i, j', stored, item, re');
        item := op;
      } else {
        LessTotal(stored.key, op.key);
        MergeBelow(values, version, t, i, j', stored, item, re');
        if !op.isDeleted && !op.isGet {
          re' := re' + [Entry(op.key, op.val)];
        }
      }
      j' := j' + 1;
    }
    OpsAbove(values, version, t, stored.key, j');
  }

  lemma NextInStep(values: Tree, version: nat, t: Txn, i: nat, i': nat, j: nat)
    requires Fits(values, version, t) && i < i' && Boundary(values, i) && Boundary(values, i') && j <= |t.ops|
    requires values[i' - 1].key == values[i].key
    requires forall a :: 0 <= a < j ==> Passed(values, i, t.ops[a].key) || !Less(values[i].key, t.ops[a].key)
    requires forall b :: j <= b < |t.ops| ==> Less(values[i].key, t.ops[b].key)
    ensures InStep(values, i', t.ops, j)
  {
    KeysSplit(values, i);
    forall a | 0 <= a < j ensures Passed(values, i', t.ops[a].key) {
      if Passed(values, i, t.ops[a].key) {
        PassedBelow(values, i, t.ops[a].key, values[i].key);
        LessAsymmetric(t.ops[a].key, values[i].key);
      }
    }
  }

  lemma AnswerGroup(values: Tree, version: nat, t: Txn, i: nat, i': nat, j: nat, item: Item, re: seq<Entry>)
    requires Fits(values, version, t) && i < i' && Boundary(values, i) && Boundary(values, i') && j <= |t.ops|
    requires values[i' - 1].key == values[i].key && Overridden(t.ops, j, values[i' - 1], item)
    requires forall a :: 0 <= a < j ==> Passed(values, i, t.ops[a].key) || !Less(values[i].key, t.ops[a].key)
    requires forall b :: j <= b < |t.ops| ==> Less(values[i].key, t.ops[b].key)
    requires KeysAscend(re) && Answers(re, values, version, t, Dealt(values, i, t.ops, j, values[i].key))
    ensures
      var re' := if item.isDeleted then re else re + [Entry(item.key, item.val)];
      KeysAscend(re') && Answers(re', values, version, t, UpTo(values, i'))
  {
    var stored := values[i' - 1];
    CloseGap(re, values, version, t, i, j);
    LessIrreflexive(stored.key);
    GroupEnd(values, version, t, i');
    assert stored in values;
    OverriddenIsShown(values, version, t, j, stored, item);
    AddKey(re, values, version, t, Below(stored.key), stored.key);
    BelowAndKey(values, i');
  }

  ghost predicate AnswersReads(re: seq<Entry>, values: Tree, t: Txn) {
    forall e :: e in re <==> e.key != [] && View(values, t, e.key) == Some(e.val)
  }

  ghost predicate AnswersSees(re: seq<Entry>, values: Tree, version: nat, t: Txn) {
    forall e :: e in re <==> e.key != [] && Sees(values, version, t, e.key) == Some(e.val)
  }

  lemma SameAnswer(re: seq<Entry>, values: Tree, version: nat, t: Txn, k: Key)
    requires AnswersSees(re, values, version, t) && AnswersReads(re, values, t) && k != []
    ensures Sees(values, version, t, k) == View(values, t, k)
  {
    var a, b := Sees(values, version, t, k), View(values, t, k);
    assert a.Some? ==> Entry(k, a.value) in re;
    assert b.Some? ==> Entry(k, b.value) in re;
  }

  /**
   A query agrees with reading key by key if and only if every key that the transaction has not recorded reads the same
   at the latest version as in its snapshot.
   */
  lemma QueryIsReadExactly(re: seq<Entry>, values: Tree, version: nat, t: Txn)
    requires AnswersSees(re, values, version, t)
    ensures AnswersReads(re, values, t)
            <==> forall k :: k != [] && OwnItem(t, k).key == [] ==>
                   Read(values, k, version) == Read(values, k, t.snapshot)
  {
    if AnswersReads(re, values, t) {
      forall k | k != [] && OwnItem(t, k).key == [] ensures Read(values, k, version) == Read(values, k, t.snapshot) {
        SameAnswer(re, values, version, t, k);
      }
    }
  }

  /** The condition can fail: a query sees a key that was put after the transaction began, and a read does not. */
  lemma QuerySeesLaterPut(k: Key, v: Bytes)
    requires k != []
    ensures
      var values, t := [Item(k, 1, v, false, false)], Txn([], 0, true);
      Fits(values, 1, t) && Sees(values, 1, t, k) == Some(v) && View(values, t, k) == None
  {
    var x := Item(k, 1, v, false, false);
    LookupIs([x], k, 1, x);
    LookupNothing([x], k, 0);
  }

  /** The unfiltered query: strictly key-sorted, and exactly the pairs that it sees. */
  method Query(values: Tree, ghost version: nat, t: Txn) returns (re: seq<Entry>)
    requires Fits(values, version, t)
    ensures KeysAscend(re) && AnswersSees(re, values, version, t)
  {
    var i, j := 0, 0;
    re := [];
    while i < |values|
      invariant InStep(values, i, t.ops, j)
      invariant KeysAscend(re) && Answers(re, values, version, t, UpTo(values, i))
    {
      var i' := LastOfGroup(values, i);
      var item, j', re' := MergeOps(values, version, t, i, j, values[i' - 1], re);
      AnswerGroup(values, version, t, i, i', j', item, re');
      NextInStep(values, version, t, i, i', j');
      i, j, re := i', j', re';
      if item.isDeleted {
        continue;
      }
      re := re + [Entry(item.key, item.val)];
    }
    assert Answers(re, values, version, t, Dealt(values, i, t.ops, j, [])) by {
      assert forall a :: 0 <= a < j ==> t.ops[a].key in UpTo(values, i);
      assert Dealt(values, i, t.ops, j, []) == UpTo(values, i);
    }
    while j < |t.ops|
      invariant j <= |t.ops| && forall b :: j <= b < |t.ops| ==> !Passed(values, i, t.ops[b].key)
      invariant KeysAscend(re) && Answers(re, values, version, t, Dealt(values, i, t.ops, j, []))
    {
      PassOp(re, values, version, t, i, j, []);
      if !t.ops[j].isDeleted && !t.ops[j].isGet {
        re := re + [Entry(t.ops[j].key, t.ops[j].val)];
      }
      j := j + 1;
    }
    AllAnswered(re, values, version, t);
  }
}
