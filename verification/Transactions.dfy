/**
 Snapshot transactions over the multi-version store (datastore/memory/txn.go): what a transaction records, when
 it may commit, and why a committed one behaves as if it had run alone at its commit.
 */
module Transactions {
  import opened Options
  import opened ByteOrder
  import opened Memory

  // ---------- One transaction ----------

  datatype Txn = Txn(ops: Tree, snapshot: nat, readOnly: bool)

  datatype Op = Get(key: Key) | Put(key: Key, val: Bytes) | Delete(key: Key)

  function Record(t: Txn, x: Item): Txn { t.(ops := Insert(t.ops, x)) }

  function OwnItem(t: Txn, k: Key): Item { Lookup(t.ops, k, t.snapshot + 1) }

  /** `get`: the newest recorded item of the key, or else the snapshot's, which is then recorded as read. */
  function ReadItem(values: Tree, t: Txn, k: Key): Item {
    if OwnItem(t, k).key != [] then OwnItem(t, k) else Lookup(values, k, t.snapshot).(isGet := true)
  }

  function AfterRead(values: Tree, t: Txn, k: Key): Txn {
    if OwnItem(t, k).key != [] then t else Record(t, ReadItem(values, t, k))
  }

  /** One call on the transaction; a write on a read-only one is refused. */
  function AfterOp(values: Tree, t: Txn, op: Op): Txn {
    match op
    case Get(k) => AfterRead(values, t, k)
    case Put(k, v) => if t.readOnly then t else Record(t, Item(k, t.snapshot + 1, v, false, false))
    case Delete(k) =>
      if t.readOnly then t
      else
        var t' := AfterRead(values, t, k);
        if AsOption(ReadItem(values, t, k)) == None then t'
        else Record(t', Item(k, t.snapshot + 1, [], true, false))
  }

  const SLASH: Byte := 47

  /** `ds.NewKey` on a recorded key: the empty key becomes the root key. */
  function NewKey(k: Key): Key { if k == [] then [SLASH] else k }

  /** `checkForConflicts`: every recorded key still has the version it had in the snapshot. */
  predicate NoConflict(values: Tree, version: nat, t: Txn) {
    t.snapshot == version
    || forall x :: x in t.ops ==>
         Lookup(values, NewKey(x.key), t.snapshot).version == Lookup(values, NewKey(x.key), version).version
  }

  // ---------- Running a program on a map ----------

  function RunOp(m: Map, op: Op): Map {
    match op
    case Get(_) => m
    case Put(k, v) => m[k := v]
    case Delete(k) => m - {k}
  }

  function Result(m: Map, op: Op): Option<Bytes> {
    if op.Get? then Find(m, op.key) else None
  }

  function Effect(m: Map, ops: seq<Op>): Map {
    if ops == [] then m else RunOp(Effect(m, ops[..|ops| - 1]), ops[|ops| - 1])
  }

  function Results(m: Map, ops: seq<Op>): seq<Option<Bytes>> {
    if ops == [] then []
    else Results(m, ops[..|ops| - 1]) + [Result(Effect(m, ops[..|ops| - 1]), ops[|ops| - 1])]
  }

  // ---------- The invariant of a running transaction ----------

  /** A recorded item is a read of the snapshot, or a write under the version after it. */
  ghost predicate ItemRight(values: Tree, snapshot: nat, x: Item) {
    if x.key == [] then x == NO_ITEM.(isGet := true)
    else if x.isGet then x.(isGet := false) == Lookup(values, x.key, snapshot) && x.version <= snapshot
    else x.version == snapshot + 1
  }

  ghost predicate OpsRight(values: Tree, t: Txn) {
    Sorted(t.ops) && forall x :: x in t.ops ==> ItemRight(values, t.snapshot, x)
  }

  function View(values: Tree, t: Txn, k: Key): Option<Bytes> { AsOption(ReadItem(values, t, k)) }

  ghost predicate Recorded(t: Txn, k: Key) { exists x :: x in t.ops && x.key == k }

  ghost predicate Shows(values: Tree, t: Txn, m: Map) {
    forall k :: k != [] ==> View(values, t, k) == Find(m, k)
  }

  ghost predicate Wrote(t: Txn, k: Key) { exists x :: x in t.ops && x.key == k && !x.isGet }

  /** The key of a call is recorded, except that a read or a delete may have met a key the snapshot does not have. */
  ghost predicate Met(values: Tree, t: Txn, op: Op) {
    && op.key != []
    && (if op.Put? then Wrote(t, op.key) else Recorded(t, op.key) || Lookup(values, op.key, t.snapshot) == NO_ITEM)
  }

  ghost predicate Writes(program: seq<Op>, k: Key) { exists op :: op in program && op.key == k && !op.Get? }

  /** The transaction shows the snapshot with its own program applied, and has recorded the keys it met. */
  ghost predicate TxnRight(values: Tree, t: Txn, base: Map, program: seq<Op>) {
    && OpsRight(values, t)
    && Shows(values, t, Effect(base, program))
    && (forall op :: op in program ==> Met(values, t, op))
    && (forall x :: x in t.ops && !x.isGet ==> Writes(program, x.key))
  }

  lemma OwnItemIs(values: Tree, t: Txn, k: Key)
    requires OpsRight(values, t) && k != []
    ensures OwnItem(t, k).key != [] <==> Recorded(t, k)
    ensures Recorded(t, k) ==> IsNewest(t.ops, k, t.snapshot + 1, OwnItem(t, k))
    ensures !Recorded(t, k) ==> OwnItem(t, k) == NO_ITEM
  {
    LookupIsNewest(t.ops, k, t.snapshot + 1);
    if Recorded(t, k) {
      var x :| x in t.ops && x.key == k;
      assert x.version <= t.snapshot + 1;
    }
  }

  lemma RecordedAfter(t: Txn, x: Item, j: Key)
    requires Sorted(t.ops)
    ensures Recorded(Record(t, x), j) <==> Recorded(t, j) || j == x.key
  {
    InsertIsSorted(t.ops, x);
    assert x in Record(t, x).ops;
    if Recorded(t, j) {
      var y :| y in t.ops && y.key == j;
      assert y in Record(t, x).ops || y.key == x.key;
    }
  }

  lemma RecordKeepsRight(values: Tree, t: Txn, x: Item)
    requires OpsRight(values, t) && ItemRight(values, t.snapshot, x)
    ensures OpsRight(values, Record(t, x))
  {
    InsertIsSorted(t.ops, x);
    forall y | y in Record(t, x).ops ensures ItemRight(values, t.snapshot, y) {}
  }

  /** A newly recorded item is what its key shows, and no other key changes. */
  lemma RecordShows(values: Tree, t: Txn, x: Item, k: Key)
    requires OpsRight(values, t) && k != [] && x.version <= t.snapshot + 1
    requires x.version == t.snapshot + 1 || !Recorded(t, x.key)
    ensures OwnItem(Record(t, x), k) == if k == x.key then x else OwnItem(t, k)
  {
    if k == x.key {
      forall y | y in t.ops && y.key == x.key ensures y.version <= x.version {
        assert ItemRight(values, t.snapshot, y);
      }
      LookupInserted(t.ops, x, t.snapshot + 1);
    } else {
      LookupOther(t.ops, x, k, t.snapshot + 1);
    }
  }

  // ---------- Every call keeps it ----------

  lemma ReadItemRight(values: Tree, version: nat, t: Txn, k: Key)
    requires ValidTree(values, version) && OpsRight(values, t) && k != [] && !Recorded(t, k)
    ensures
      var x := ReadItem(values, t, k);
      && AfterRead(values, t, k) == Record(t, x) && x == Lookup(values, k, t.snapshot).(isGet := true)
      && ItemRight(values, t.snapshot, x) && (x.key == k || Lookup(values, k, t.snapshot) == NO_ITEM)
  {
    OwnItemIs(values, t, k);
    LookupIsNewest(values, k, t.snapshot);
  }

  /** Reading changes no value that the transaction shows. */
  lemma ReadShows(values: Tree, version: nat, t: Txn, k: Key, j: Key)
    requires ValidTree(values, version) && OpsRight(values, t) && k != [] && j != []
    ensures View(values, AfterRead(values, t, k), j) == View(values, t, j)
  {
    OwnItemIs(values, t, k);
    if !Recorded(t, k) {
      ReadItemRight(values, version, t, k);
      var x := ReadItem(values, t, k);
      assert x.key != k ==> j != x.key;
      if x.key == k {
        RecordShows(values, t, x, j);
      } else {
        LookupOther(t.ops, x, j, t.snapshot + 1);
      }
    }
  }

  lemma ReadRecords(values: Tree, version: nat, t: Txn, k: Key)
    requires ValidTree(values, version) && OpsRight(values, t) && k != []
    ensures
      var t' := AfterRead(values, t, k);
      && OpsRight(values, t')
      && (forall j :: Recorded(t, j) ==> Recorded(t', j))
      && (Recorded(t', k) || Lookup(values, k, t.snapshot) == NO_ITEM)
  {
    OwnItemIs(values, t, k);
    if !Recorded(t, k) {
      ReadItemRight(values, version, t, k);
      var x := ReadItem(values, t, k);
      RecordKeepsRight(values, t, x);
      forall j ensures Recorded(Record(t, x), j) <==> Recorded(t, j) || j == x.key { RecordedAfter(t, x, j); }
    }
  }

  lemma ReadWritesNothing(values: Tree, version: nat, t: Txn, k: Key)
    requires ValidTree(values, version) && OpsRight(values, t) && k != []
    ensures forall x :: x in AfterRead(values, t, k).ops && !x.isGet <==> x in t.ops && !x.isGet
  {
    OwnItemIs(values, t, k);
    if !Recorded(t, k) {
      ReadItemRight(values, version, t, k);
      var x := ReadItem(values, t, k);
      InsertIsSorted(t.ops, x);
      forall y | y in t.ops && SameSlot(y, x) ensures y.isGet { assert ItemRight(values, t.snapshot, y); }
    }
  }

  lemma EffectOfNext(m: Map, program: seq<Op>, op: Op)
    ensures Effect(m, program + [op]) == RunOp(Effect(m, program), op)
    ensures Results(m, program + [op]) == Results(m, program) + [Result(Effect(m, program), op)]
  {
    assert (program + [op])[..|program|] == program;
  }

  /** Reading changes nothing that is shown, and records its key if the snapshot has it. */
  lemma ReadOnView(values: Tree, version: nat, t: Txn, m: Map, k: Key)
    requires ValidTree(values, version) && OpsRight(values, t) && k != [] && Shows(values, t, m)
    ensures
      var t' := AfterRead(values, t, k);
      && OpsRight(values, t') && Shows(values, t', m)
      && (forall j :: Recorded(t, j) ==> Recorded(t', j))
      && (Recorded(t', k) || Lookup(values, k, t.snapshot) == NO_ITEM)
  {
    ReadRecords(values, version, t, k);
    forall j | j != [] ensures View(values, AfterRead(values, t, k), j) == Find(m, j) {
      ReadShows(values, version, t, k, j);
    }
  }

  lemma WriteOnView(values: Tree, t: Txn, m: Map, x: Item)
    requires OpsRight(values, t) && x.key != [] && !x.isGet && x.version == t.snapshot + 1 && Shows(values, t, m)
    ensures
      var t' := Record(t, x);
      && OpsRight(values, t') && Shows(values, t', if x.isDeleted then m - {x.key} else m[x.key := x.val])
      && (forall j :: Recorded(t, j) ==> Recorded(t', j)) && Recorded(t', x.key)
  {
    RecordKeepsRight(values, t, x);
    forall j | j != []
      ensures View(values, Record(t, x), j) == Find(if x.isDeleted then m - {x.key} else m[x.key := x.val], j)
    {
      RecordShows(values, t, x, j);
      assert View(values, t, j) == Find(m, j);
    }
    forall j ensures Recorded(Record(t, x), j) <==> Recorded(t, j) || j == x.key { RecordedAfter(t, x, j); }
  }

  lemma ReadThenDelete(values: Tree, version: nat, t: Txn, m: Map, k: Key)
    requires ValidTree(values, version) && OpsRight(values, t) && k != [] && Shows(values, t, m)
    ensures
      var read := AfterRead(values, t, k);
      var t' := Record(read, Item(k, t.snapshot + 1, [], true, false));
      && OpsRight(values, t') && Shows(values, t', m - {k})
      && (forall j :: Recorded(t, j) ==> Recorded(t', j)) && Recorded(t', k)
  {
    ReadOnView(values, version, t, m, k);
    WriteOnView(values, AfterRead(values, t, k), m, Item(k, t.snapshot + 1, [], true, false));
  }

  lemma DeleteShows(values: Tree, version: nat, t: Txn, m: Map, k: Key)
    requires ValidTree(values, version) && OpsRight(values, t) && k != [] && !t.readOnly && Shows(values, t, m)
    ensures OpsRight(values, AfterOp(values, t, Delete(k))) && Shows(values, AfterOp(values, t, Delete(k)), m - {k})
  {
    if View(values, t, k) == None {
      assert m - {k} == m;
      ReadOnView(values, version, t, m, k);
    } else {
      ReadThenDelete(values, version, t, m, k);
    }
  }

  lemma DeleteRecords(values: Tree, version: nat, t: Txn, m: Map, k: Key)
    requires ValidTree(values, version) && OpsRight(values, t) && k != [] && !t.readOnly && Shows(values, t, m)
    ensures forall j :: Recorded(t, j) ==> Recorded(AfterOp(values, t, Delete(k)), j)
    ensures Recorded(AfterOp(values, t, Delete(k)), k) || Lookup(values, k, t.snapshot) == NO_ITEM
  {
    if View(values, t, k) == None {
      ReadOnView(values, version, t, m, k);
    } else {
      ReadThenDelete(values, version, t, m, k);
    }
  }

  /** One call changes what the transaction shows as it would change a map. */
  lemma OpOnView(values: Tree, version: nat, t: Txn, m: Map, op: Op)
    requires ValidTree(values, version) && OpsRight(values, t) && op.key != [] && (op.Get? || !t.readOnly)
    requires Shows(values, t, m)
    ensures
      var t' := AfterOp(values, t, op);
      && OpsRight(values, t') && Shows(values, t', RunOp(m, op))
      && (forall k :: Recorded(t, k) ==> Recorded(t', k))
      && (Recorded(t', op.key) || (!op.Put? && Lookup(values, op.key, t.snapshot) == NO_ITEM))
  {
    match op
    case Get(k) => ReadOnView(values, version, t, m, k);
    case Put(k, v) => WriteOnView(values, t, m, Item(k, t.snapshot + 1, v, false, false));
    case Delete(k) =>
      DeleteShows(values, version, t, m, k);
      DeleteRecords(values, version, t, m, k);
  }

  /** A write stays, or gives way to one of the same key. */
  lemma RecordWrites(t: Txn, x: Item)
    requires Sorted(t.ops) && !x.isGet
    ensures forall y :: y in Record(t, x).ops && !y.isGet ==> y in t.ops || y == x
    ensures forall k :: Wrote(t, k) || k == x.key ==> Wrote(Record(t, x), k)
  {
    InsertIsSorted(t.ops, x);
    assert x in Record(t, x).ops;
    forall k | Wrote(t, k) ensures Wrote(Record(t, x), k) {
      var y :| y in t.ops && y.key == k && !y.isGet;
      assert y in Record(t, x).ops || SameSlot(y, x);
    }
  }

  lemma ReadWrites(values: Tree, version: nat, t: Txn, k: Key)
    requires ValidTree(values, version) && OpsRight(values, t) && k != []
    ensures forall x :: x in AfterRead(values, t, k).ops && !x.isGet ==> x in t.ops
    ensures forall j :: Wrote(t, j) ==> Wrote(AfterRead(values, t, k), j)
  {
    ReadWritesNothing(values, version, t, k);
    forall j | Wrote(t, j) ensures Wrote(AfterRead(values, t, k), j) {
      var x :| x in t.ops && x.key == j && !x.isGet;
      assert x in AfterRead(values, t, k).ops;
    }
  }

  /** A call adds writes of its own key only, and a key that has been written stays so. */
  lemma NewWritesAreProgram(values: Tree, version: nat, t: Txn, op: Op)
    requires ValidTree(values, version) && OpsRight(values, t) && op.key != []
    ensures forall x :: x in AfterOp(values, t, op).ops && !x.isGet ==> x in t.ops || (x.key == op.key && !op.Get?)
    ensures forall k :: Wrote(t, k) ==> Wrote(AfterOp(values, t, op), k)
    ensures op.Put? && !t.readOnly ==> Wrote(AfterOp(values, t, op), op.key)
  {
    match op
    case Get(k) => ReadWrites(values, version, t, k);
    case Put(k, v) => RecordWrites(t, Item(k, t.snapshot + 1, v, false, false));
    case Delete(k) =>
      ReadWrites(values, version, t, k);
      ReadRecords(values, version, t, k);
      RecordWrites(AfterRead(values, t, k), Item(k, t.snapshot + 1, [], true, false));
  }

  lemma WritesNext(values: Tree, version: nat, t: Txn, program: seq<Op>, op: Op)
    requires ValidTree(values, version) && OpsRight(values, t) && op.key != []
    requires forall x :: x in t.ops && !x.isGet ==> Writes(program, x.key)
    ensures forall x :: x in AfterOp(values, t, op).ops && !x.isGet ==> Writes(program + [op], x.key)
  {
    NewWritesAreProgram(values, version, t, op);
    forall x | x in AfterOp(values, t, op).ops && !x.isGet ensures Writes(program + [op], x.key) {
      if x in t.ops {
        var o :| o in program && o.key == x.key && !o.Get?;
        assert o in program + [op];
      } else {
        assert op in program + [op];
      }
    }
  }

  /** Reads give what the program would read on the snapshot, and every call keeps the transaction right. */
  lemma OpKeepsRight(values: Tree, version: nat, t: Txn, base: Map, program: seq<Op>, op: Op)
    requires ValidTree(values, version) && TxnRight(values, t, base, program) && op.key != []
    requires op.Get? || !t.readOnly
    ensures TxnRight(values, AfterOp(values, t, op), base, program + [op])
    ensures op.Get? ==> View(values, t, op.key) == Result(Effect(base, program), op)
  {
    var t' := AfterOp(values, t, op);
    EffectOfNext(base, program, op);
    OpOnView(values, version, t, Effect(base, program), op);
    WritesNext(values, version, t, program, op);
    NewWritesAreProgram(values, version, t, op);
    forall o | o in program + [op] ensures Met(values, t', o) {
      assert o != op ==> o in program && Met(values, t, o);
    }
  }

  // ---------- Committing ----------

  /** The map that a commit leaves: the latest one, with the recorded writes on top. */
  function Overlay(m: Map, ops: seq<Item>): Map {
    if ops == [] then m
    else
      var x := ops[|ops| - 1];
      var rest := Overlay(m, ops[..|ops| - 1]);
      if x.isGet then rest else if x.isDeleted then rest - {x.key} else rest[x.key := x.val]
  }

  lemma {:induction false} OverlayFinds(m: Map, ops: seq<Item>, k: Key)
    requires k != []
    ensures Find(Overlay(m, ops), k)
            == if LastWrite(ops, k) == NO_ITEM then Find(m, k) else AsOption(LastWrite(ops, k))
  {
    if ops != [] {
      OverlayFinds(m, ops[..|ops| - 1], k);
    }
  }

  lemma {:induction false} OverlayNoEmptyKey(m: Map, ops: seq<Item>)
    requires [] !in m && forall x :: x in ops && !x.isGet ==> x.key != []
    ensures [] !in Overlay(m, ops)
  {
    if ops != [] {
      OverlayNoEmptyKey(m, ops[..|ops| - 1]);
    }
  }

  /** A commit adds one map to the history and changes no earlier one. */
  lemma CommitRefines(values: Tree, version: nat, low: nat, hist: seq<Map>, ops: seq<Item>)
    requires Refines(values, version, low, hist) && low <= version
    requires forall x :: x in ops && !x.isGet ==> x.key != []
    ensures Refines(WriteAll(values, ops, version + 1), version + 1, low, hist + [Overlay(hist[version], ops)])
    ensures forall k, w: nat :: k != [] && w <= version ==>
              Lookup(WriteAll(values, ops, version + 1), k, w) == Lookup(values, k, w)
  {
    var v, m := version + 1, Overlay(hist[version], ops);
    var values', hist' := WriteAll(values, ops, v), hist + [m];
    WriteAllValid(values, ops, v);
    OverlayNoEmptyKey(hist[version], ops);
    forall k, w: nat | k != [] && w <= version ensures Lookup(values', k, w) == Lookup(values, k, w) {
      WriteAllReads(values, ops, v, k, w);
    }
    forall k | k != [] ensures Read(values', k, v) == Find(m, k) {
      WriteAllReads(values, ops, v, k, v);
      OverlayFinds(hist[version], ops, k);
      LookupSame(values, values, k, v, version);
      assert Read(values, k, version) == Find(hist[version], k);
    }
  }

  lemma {:induction false} LastWriteIs(ops: seq<Item>, k: Key)
    requires k != []
    ensures LastWrite(ops, k) == NO_ITEM ==> forall x :: x in ops && x.key == k ==> x.isGet
    ensures LastWrite(ops, k) != NO_ITEM ==>
              LastWrite(ops, k) in ops && LastWrite(ops, k).key == k && !LastWrite(ops, k).isGet
  {
    if ops != [] {
      LastWriteIs(ops[..|ops| - 1], k);
      assert ops == ops[..|ops| - 1] + [ops[|ops| - 1]];
    }
  }

  /** What a transaction shows for a key is its last write there, or else the snapshot. */
  lemma ShownIsLastWrite(values: Tree, version: nat, t: Txn, k: Key)
    requires ValidTree(values, version) && OpsRight(values, t) && k != []
    ensures View(values, t, k)
            == if LastWrite(t.ops, k) == NO_ITEM then Read(values, k, t.snapshot) else AsOption(LastWrite(t.ops, k))
  {
    LastWriteIs(t.ops, k);
    OwnItemIs(values, t, k);
    var x := LastWrite(t.ops, k);
    if x != NO_ITEM {
      assert Recorded(t, k);
      SlotUnique(t.ops, x, OwnItem(t, k));
    }
  }

  /** A recorded key that passes the check reads the same in the snapshot and at the commit. */
  lemma CheckedKeyIsUnchanged(values: Tree, version: nat, t: Txn, at: nat, k: Key)
    requires ValidTree(values, version) && NoConflict(values, at, t) && Recorded(t, k) && k != []
    ensures Lookup(values, k, t.snapshot) == Lookup(values, k, at)
  {
    if t.snapshot != at {
      var x :| x in t.ops && x.key == k;
      LookupIsNewest(values, k, t.snapshot);
      LookupIsNewest(values, k, at);
      var a, b := Lookup(values, k, t.snapshot), Lookup(values, k, at);
      if a != NO_ITEM {
        SlotUnique(values, a, b);
      }
    }
  }

  // ---------- Serial equivalence ----------

  /** Running the program alone at the commit gives the results seen, and the map that the commit leaves. */
  ghost predicate IsSerial(t: Txn, program: seq<Op>, results: seq<Option<Bytes>>, latest: Map) {
    Results(latest, program) == results && Effect(latest, program) == Overlay(latest, t.ops)
  }

  /** The program reads the key at position i, and has not written it before. */
  ghost predicate ReadsFirst(program: seq<Op>, k: Key, i: nat) {
    i < |program| && program[i] == Get(k) && !Writes(program[..i], k)
  }

  /** What the program read before writing it is unchanged, and what it deleted in vain is still absent. */
  ghost predicate Harmless(t: Txn, program: seq<Op>, base: Map, latest: Map) {
    && (forall k, i: nat {:trigger ReadsFirst(program, k, i)} ::
          ReadsFirst(program, k, i) ==> Find(base, k) == Find(latest, k))
    && (forall k :: Writes(program, k) && LastWrite(t.ops, k) == NO_ITEM ==> k !in latest)
  }

  /** Once written, a key no longer depends on the map the program started from. */
  lemma {:induction false} WrittenKeyAgrees(m: Map, n: Map, program: seq<Op>, k: Key)
    ensures Find(Effect(m, program), k) == if Writes(program, k) then Find(Effect(n, program), k) else Find(m, k)
  {
    if program != [] {
      var init, op := program[..|program| - 1], program[|program| - 1];
      assert program == init + [op];
      WrittenKeyAgrees(m, n, init, k);
      assert Writes(program, k) <==> Writes(init, k) || (op.key == k && !op.Get?);
    }
  }

  /** Written without a put, a key ends absent. */
  lemma {:induction false} OnlyDeletes(m: Map, program: seq<Op>, k: Key)
    requires Writes(program, k) && forall op :: op in program && op.Put? ==> op.key != k
    ensures Find(Effect(m, program), k) == None
  {
    var init, op := program[..|program| - 1], program[|program| - 1];
    assert program == init + [op];
    if op != Delete(k) {
      OnlyDeletes(m, init, k);
    }
  }

  lemma {:induction false} ResultAt(m: Map, program: seq<Op>, i: nat)
    requires i < |program|
    ensures |Results(m, program)| == |program|
    ensures Results(m, program)[i] == Result(Effect(m, program[..i]), program[i])
  {
    var init := program[..|program| - 1];
    ResultsLength(m, init);
    if i < |init| {
      ResultAt(m, init, i);
      assert init[..i] == program[..i];
    }
  }

  lemma {:induction false} ResultsLength(m: Map, program: seq<Op>)
    ensures |Results(m, program)| == |program|
  {
    if program != [] {
      ResultsLength(m, program[..|program| - 1]);
    }
  }

  lemma SameAnswer(m: Map, n: Map, program: seq<Op>, i: nat)
    requires i < |program|
    ensures |Results(m, program)| == |program| == |Results(n, program)|
    ensures Results(m, program)[i] == Results(n, program)[i]
            <==> (ReadsFirst(program, program[i].key, i) ==> Find(m, program[i].key) == Find(n, program[i].key))
  {
    ResultAt(m, program, i);
    ResultAt(n, program, i);
    WrittenKeyAgrees(m, n, program[..i], program[i].key);
    WrittenKeyAgrees(n, m, program[..i], program[i].key);
  }

  /** Two maps give a program the same answers exactly when they agree on what it reads before writing it. */
  lemma SameAnswersExactly(m: Map, n: Map, program: seq<Op>)
    ensures Results(m, program) == Results(n, program)
            <==> forall k, i: nat {:trigger ReadsFirst(program, k, i)} ::
                   ReadsFirst(program, k, i) ==> Find(m, k) == Find(n, k)
  {
    ResultsLength(m, program);
    ResultsLength(n, program);
    forall i: nat | i < |program|
      ensures Results(m, program)[i] == Results(n, program)[i]
              <==> (ReadsFirst(program, program[i].key, i) ==> Find(m, program[i].key) == Find(n, program[i].key))
    {
      SameAnswer(m, n, program, i);
    }
    if Results(m, program) == Results(n, program) {
      forall k, i: nat | ReadsFirst(program, k, i) ensures Find(m, k) == Find(n, k) {
        assert program[i].key == k;
      }
    }
  }

  /** For one key, running the program on a map and laying the recorded writes over it agree exactly so. */
  lemma SameKeyExactly(values: Tree, version: nat, t: Txn, base: Map, program: seq<Op>, latest: Map, k: Key)
    requires ValidTree(values, version) && TxnRight(values, t, base, program) && k != []
    requires Read(values, k, t.snapshot) == Find(base, k)
    ensures Find(Effect(latest, program), k) == Find(Overlay(latest, t.ops), k)
            <==> !(Writes(program, k) && LastWrite(t.ops, k) == NO_ITEM && k in latest)
  {
    OverlayFinds(latest, t.ops, k);
    ShownIsLastWrite(values, version, t, k);
    LastWriteIs(t.ops, k);
    WrittenKeyAgrees(latest, base, program, k);
    WrittenKeyAgrees(base, latest, program, k);
    assert View(values, t, k) == Find(Effect(base, program), k);
    if Writes(program, k) && LastWrite(t.ops, k) == NO_ITEM {
      forall op | op in program && op.Put? ensures op.key != k { assert Met(values, t, op); }
      OnlyDeletes(base, program, k);
    }
  }

  lemma SameFindsSameMap(m: Map, n: Map)
    requires forall k :: Find(m, k) == Find(n, k)
    ensures m == n
  {
    forall k ensures k in m <==> k in n { assert Find(m, k) == Find(n, k); }
    forall k | k in m ensures m[k] == n[k] { assert Find(m, k) == Find(n, k); }
  }

  /** Only keys that are not empty are ever stored, so the empty key never tells two maps apart. */
  lemma NoEmptyKey(values: Tree, t: Txn, base: Map, program: seq<Op>, latest: Map)
    requires TxnRight(values, t, base, program) && [] !in latest
    ensures !Writes(program, []) && Find(Effect(latest, program), []) == Find(Overlay(latest, t.ops), [])
  {
    forall op | op in program ensures op.key != [] { assert Met(values, t, op); }
    WrittenKeyAgrees(latest, base, program, []);
    OverlayNoEmptyKey(latest, t.ops);
  }

  /** The version stands for the map. */
  ghost predicate Reads(values: Tree, w: nat, m: Map) {
    forall k :: k != [] ==> Read(values, k, w) == Find(m, k)
  }

  lemma SameMapExactly(values: Tree, version: nat, t: Txn, base: Map, program: seq<Op>, latest: Map)
    requires ValidTree(values, version) && TxnRight(values, t, base, program) && [] !in latest
    requires Reads(values, t.snapshot, base)
    ensures Effect(latest, program) == Overlay(latest, t.ops)
            <==> forall k :: Writes(program, k) && LastWrite(t.ops, k) == NO_ITEM ==> k !in latest
  {
    var m, n := Effect(latest, program), Overlay(latest, t.ops);
    NoEmptyKey(values, t, base, program, latest);
    forall k | k != []
      ensures Find(m, k) == Find(n, k) <==> !(Writes(program, k) && LastWrite(t.ops, k) == NO_ITEM && k in latest)
    {
      assert Read(values, k, t.snapshot) == Find(base, k);
      SameKeyExactly(values, version, t, base, program, latest, k);
    }
    if forall k :: Writes(program, k) && LastWrite(t.ops, k) == NO_ITEM ==> k !in latest {
      SameFindsSameMap(m, n);
    }
  }

  /**
   Whatever map the commit finds, the transaction is serial there if and only if what it read before writing is
   unchanged, and what it deleted in vain is still absent.
   */
  lemma SerialExactly(values: Tree, version: nat, t: Txn, base: Map, program: seq<Op>, latest: Map)
    requires ValidTree(values, version) && TxnRight(values, t, base, program) && [] !in latest
    requires Reads(values, t.snapshot, base)
    ensures IsSerial(t, program, Results(base, program), latest) <==> Harmless(t, program, base, latest)
  {
    SameAnswersExactly(base, latest, program);
    SameMapExactly(values, version, t, base, program, latest);
  }

  /** Every key that the program met but that the commit check does not cover is still absent. */
  ghost predicate AbsentStaysAbsent(t: Txn, program: seq<Op>, latest: Map) {
    forall op :: op in program && !Recorded(t, op.key) ==> op.key !in latest
  }

  lemma VainDeleteIsAbsent(values: Tree, version: nat, t: Txn, base: Map, program: seq<Op>, k: Key)
    requires ValidTree(values, version) && TxnRight(values, t, base, program) && k != []
    requires Read(values, k, t.snapshot) == Find(base, k)
    requires Writes(program, k) && LastWrite(t.ops, k) == NO_ITEM
    ensures k !in base
  {
    LastWriteIs(t.ops, k);
    forall op | op in program && op.Put? ensures op.key != k { assert Met(values, t, op); }
    OnlyDeletes(base, program, k);
    ShownIsLastWrite(values, version, t, k);
    assert View(values, t, k) == Find(Effect(base, program), k);
  }

  /** The transaction passed the check when the store held the map `latest`, at version `at`. */
  ghost predicate Passed(values: Tree, version: nat, t: Txn, base: Map, program: seq<Op>, at: nat, latest: Map) {
    && ValidTree(values, version) && TxnRight(values, t, base, program) && Reads(values, t.snapshot, base)
    && NoConflict(values, at, t) && Reads(values, at, latest) && [] !in latest
  }

  lemma KeyUnchanged(values: Tree, version: nat, t: Txn, base: Map, program: seq<Op>, at: nat, latest: Map, op: Op)
    requires Passed(values, version, t, base, program, at, latest)
    requires AbsentStaysAbsent(t, program, latest) && op in program
    ensures Find(base, op.key) == Find(latest, op.key)
  {
    var k := op.key;
    assert Met(values, t, op);
    assert Read(values, k, t.snapshot) == Find(base, k) && Read(values, k, at) == Find(latest, k);
    if Recorded(t, k) {
      CheckedKeyIsUnchanged(values, version, t, at, k);
    }
  }

  lemma HarmlessIfAbsent(values: Tree, version: nat, t: Txn, base: Map, program: seq<Op>, at: nat, latest: Map)
    requires Passed(values, version, t, base, program, at, latest) && AbsentStaysAbsent(t, program, latest)
    ensures Harmless(t, program, base, latest)
  {
    forall k, i: nat | ReadsFirst(program, k, i) ensures Find(base, k) == Find(latest, k) {
      KeyUnchanged(values, version, t, base, program, at, latest, program[i]);
    }
    forall k | Writes(program, k) && LastWrite(t.ops, k) == NO_ITEM ensures k !in latest {
      var op :| op in program && op.key == k && !op.Get?;
      KeyUnchanged(values, version, t, base, program, at, latest, op);
      assert Met(values, t, op) && Read(values, k, t.snapshot) == Find(base, k);
      VainDeleteIsAbsent(values, version, t, base, program, k);
    }
  }

  lemma AbsentIfHarmless(values: Tree, t: Txn, base: Map, program: seq<Op>, latest: Map, op: Op)
    requires TxnRight(values, t, base, program) && Harmless(t, program, base, latest)
    requires op in program && !Recorded(t, op.key) && Read(values, op.key, t.snapshot) == Find(base, op.key)
    ensures op.key !in base && op.key !in latest
  {
    var k := op.key;
    assert Met(values, t, op);
    LastWriteIs(t.ops, k);
    if !Writes(program, k) {
      var i :| 0 <= i < |program| && program[i] == op;
      assert !Writes(program[..i], k);
      assert ReadsFirst(program, k, i);
    }
  }

  /**
   A transaction that passes the check is serial at its commit if and only if the keys it met and did not
   record, all of them absent from its snapshot, are still absent then.
   */
  lemma CommitIsSerialExactly(values: Tree, version: nat, t: Txn, base: Map, program: seq<Op>, at: nat, latest: Map)
    requires Passed(values, version, t, base, program, at, latest)
    ensures IsSerial(t, program, Results(base, program), latest) <==> AbsentStaysAbsent(t, program, latest)
    ensures Harmless(t, program, base, latest) <==> AbsentStaysAbsent(t, program, latest)
    ensures forall op :: op in program && !Recorded(t, op.key) ==> op.key !in base
  {
    SerialExactly(values, version, t, base, program, latest);
    if AbsentStaysAbsent(t, program, latest) {
      HarmlessIfAbsent(values, version, t, base, program, at, latest);
    } else if Harmless(t, program, base, latest) {
      forall op | op in program && !Recorded(t, op.key) ensures op.key !in latest {
        assert Met(values, t, op);
        AbsentIfHarmless(values, t, base, program, latest, op);
      }
    }
    forall op | op in program && !Recorded(t, op.key) ensures op.key !in base {
      assert Met(values, t, op);
      assert Read(values, op.key, t.snapshot) == Find(base, op.key);
    }
  }

  /** If nothing that the program met has changed since the check, the same holds at the later map. */
  lemma LaterCommitIsSerialExactly(values: Tree, version: nat, t: Txn, base: Map, program: seq<Op>, at: nat,
                                   checked: Map, latest: Map)
    requires Passed(values, version, t, base, program, at, checked) && [] !in latest
    requires forall op :: op in program ==> Find(checked, op.key) == Find(latest, op.key)
    ensures IsSerial(t, program, Results(base, program), latest) <==> AbsentStaysAbsent(t, program, latest)
  {
    CommitIsSerialExactly(values, version, t, base, program, at, checked);
    SerialExactly(values, version, t, base, program, latest);
    forall k | Writes(program, k) || exists i: nat :: ReadsFirst(program, k, i)
      ensures Find(checked, k) == Find(latest, k)
    {
      if Writes(program, k) {
        var op :| op in program && op.key == k && !op.Get?;
      } else {
        var i: nat :| ReadsFirst(program, k, i);
        assert program[i] in program;
      }
    }
    assert Harmless(t, program, base, checked) <==> Harmless(t, program, base, latest);
    assert AbsentStaysAbsent(t, program, checked) <==> AbsentStaysAbsent(t, program, latest);
  }

  /**
   The condition can fail: a transaction that reads an absent key passes the check after another one has put it,
   although at the commit it would have read the new value.
   */
  lemma AbsentReadCanBeStale(v: Bytes)
    ensures
      var k: Key := [97];
      var t := AfterOp([], Txn([], 0, false), Get(k));
      var values := WriteAll([], [Item(k, 1, v, false, false)], 1);
      && View([], Txn([], 0, false), k) == None && Read(values, k, 1) == Some(v)
      && NoConflict(values, 1, t)
      && !IsSerial(t, [Get(k)], [None], map[k := v])
  {
    var k: Key := [97];
    var x := Item(k, 1, v, false, false);
    assert WriteAll([], [x], 1) == [x];
    LookupNothing([x], [SLASH], 0);
    LookupNothing([x], [SLASH], 1);
    assert Results(map[k := v], [Get(k)]) == [Some(v)];
  }
}
