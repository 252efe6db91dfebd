/**
 Three runs of the in-memory datastore in which a promise of its transactions fails: a snapshot taken while a batch
 is storing, a batch between the check of a commit and its version, and a purge beyond a running snapshot whose
 entry another transaction has taken away.
 */
module TxnFaults {
  import opened Options
  import opened ByteOrder
  import opened Memory
  import opened Purge
  import opened Transactions
  import opened TxnStore
  import opened TxnRuns
  import opened TxnSerial

  ghost predicate EndsIn(ss: seq<System>, es: seq<Event>, s: System) { IsRun(ss, es) && ss[|es|] == s }

  lemma Extend(ss: seq<System>, es: seq<Event>, s: System, e: Event, s': System)
    returns (ss': seq<System>, es': seq<Event>)
    requires EndsIn(ss, es, s) && Sized(s) && Enabled(s, e) && s' == Step(s, e)
    ensures EndsIn(ss', es', s') && es' == es + [e] && ss' == ss + [s']
  {
    ss', es' := ss + [s'], es + [e];
    forall j: nat | j < |es'| ensures StepAt(ss', es', j) {
      if j < |es| {
        assert StepAt(ss, es, j);
      }
    }
  }

  function Write(k: Key, version: nat, v: Bytes): Item { Item(k, version, v, false, false) }

  /** A batch with one put has taken the first version. */
  function Taken(k: Key, a: Bytes): Store {
    Store([], 1, [Write(k, 1, a)], [Write(k, 1, a)], {Write(k, 1, a)}, 0, [map[], map[k := a]])
  }

  function Stored(k: Key, a: Bytes): Store {
    Store([Write(k, 1, a)], 1, [Write(k, 1, a)], [Write(k, 1, a)], {}, 0, [map[], map[k := a]])
  }

  function Idle(d: Store): System { System(d, {}, Free, map[]) }

  lemma TakeOne(d: Store, x: Item)
    requires !x.isGet && !x.isDeleted && |d.hist| == d.version + 1
    ensures
      var y := x.(version := d.version + 1);
      Take(d, [x]) == Store(d.values, d.version + 1, Insert(d.ever, y), Insert(d.promised, y), d.pending + {y}, d.low,
                            d.hist + [d.hist[d.version][x.key := x.val]])
  {
    var m, v := d.hist[d.version], d.version + 1;
    assert [x][..0] == [] && x in [x];
    assert Overlay(m, []) == m && Overlay(m, [x]) == m[x.key := x.val];
    assert WriteAll(d.promised, [], v) == d.promised && WriteAll(d.ever, [], v) == d.ever;
    assert WriteAll(d.promised, [x], v) == Insert(d.promised, x.(version := v));
    assert WriteAll(d.ever, [x], v) == Insert(d.ever, x.(version := v));
    assert NewItems([x], d.version + 1) == {x.(version := d.version + 1)};
  }

  lemma BatchTakes(k: Key, a: Bytes) returns (ss: seq<System>, es: seq<Event>)
    requires k != []
    ensures EndsIn(ss, es, Idle(Taken(k, a)))
  {
    TakeOne(NOTHING.store, Write(k, 0, a));
    ss, es := Extend([NOTHING], [], NOTHING, BatchVersion([Write(k, 0, a)]), Idle(Taken(k, a)));
  }

  lemma BatchStores(k: Key, a: Bytes) returns (ss: seq<System>, es: seq<Event>)
    requires k != []
    ensures EndsIn(ss, es, Idle(Stored(k, a)))
  {
    ss, es := BatchTakes(k, a);
    ss, es := Extend(ss, es, Idle(Taken(k, a)), StoreOne(Write(k, 1, a)), Idle(Stored(k, a)));
  }

  // ---------- A torn snapshot ----------

  /** What the transaction is after a read that found nothing, and after one that found the value. */
  function Missed(k: Key): Running { Running(Txn([NO_ITEM.(isGet := true)], 1, false), [Get(k)], [None], {0}, false) }

  lemma MissingRead(k: Key)
    requires k != []
    ensures Called([], Running(Txn([], 1, false), [], [], {}, false), Get(k)) == Missed(k)
  {
  }

  lemma SecondRead(k: Key, a: Bytes)
    requires k != []
    ensures
      var r := Called([Write(k, 1, a)], Missed(k), Get(k));
      r.txn.snapshot == 1 && r.program == [Get(k), Get(k)] && r.results == [None, Some(a)]
  {
    LookupNothing([NO_ITEM.(isGet := true)], k, 2);
    LookupIs([Write(k, 1, a)], k, 1, Write(k, 1, a));
  }

  lemma OneRead(m: Map, k: Key)
    ensures Effect(m, [Get(k)]) == m && Results(m, [Get(k)]) == [Find(m, k)]
  {
    assert [Get(k)][..0] == [];
  }

  lemma TwoReads(m: Map, k: Key)
    ensures Results(m, [Get(k), Get(k)]) == [Find(m, k), Find(m, k)]
  {
    OneRead(m, k);
    EffectOfNext(m, [Get(k)], Get(k));
    assert [Get(k)] + [Get(k)] == [Get(k), Get(k)];
  }

  /** A transaction that begins while a batch is storing can miss the batch in one read and see it in the next. */
  lemma SnapshotCanBeTorn(k: Key, a: Bytes) returns (ss: seq<System>, es: seq<Event>)
    requires k != []
    ensures IsRun(ss, es) && 0 in ss[|es|].txns
    ensures
      var d, r := ss[|es|].store, ss[|es|].txns[0];
      && r.program == [Get(k), Get(k)] && r.results == [None, Some(a)]
      && r.txn.snapshot < |d.hist| && Results(d.hist[r.txn.snapshot], r.program) == [Some(a), Some(a)]
  {
    ss, es := BatchTakes(k, a);
    var s0 := Idle(Taken(k, a));
    var s1 := s0.(txns := map[0 := Running(Txn([], 1, false), [], [], {}, false)]);
    ss, es := Extend(ss, es, s0, Begin(0, false), s1);
    var s2 := s1.(txns := map[0 := Missed(k)]);
    MissingRead(k);
    ss, es := Extend(ss, es, s1, Call(0, Get(k)), s2);
    var s3 := s2.(store := Stored(k, a));
    ss, es := Extend(ss, es, s2, StoreOne(Write(k, 1, a)), s3);
    SecondRead(k, a);
    ss, es := Extend(ss, es, s3, Call(0, Get(k)), s3.(txns := map[0 := Called([Write(k, 1, a)], Missed(k), Get(k))]));
    TwoReads(map[k := a], k);
  }

  // ---------- A batch between check and version ----------

  function Found(k: Key, a: Bytes): Running {
    Running(Txn([Write(k, 1, a).(isGet := true)], 1, false), [Get(k)], [Some(a)], {0}, true)
  }

  lemma FindingRead(k: Key, a: Bytes)
    requires k != []
    ensures Called([Write(k, 1, a)], Running(Txn([], 1, false), [], [], {}, true), Get(k)) == Found(k, a)
  {
    LookupIs([Write(k, 1, a)], k, 1, Write(k, 1, a));
  }

  /** The store after a second put of the key has taken a version. */
  function Overtaken(k: Key, a: Bytes, b: Bytes): Store {
    var both := [Write(k, 1, a), Write(k, 2, b)];
    Store([Write(k, 1, a)], 2, both, both, {Write(k, 2, b)}, 0, [map[], map[k := a], map[k := b]])
  }

  lemma OvertakenIs(k: Key, a: Bytes, b: Bytes)
    ensures Take(Stored(k, a), [Write(k, 0, b)]) == Overtaken(k, a, b)
  {
    TakeOne(Stored(k, a), Write(k, 0, b));
    assert map[k := a][k := b] == map[k := b];
  }

  /** The transaction has passed the check, and then the batch takes its version. */
  function Between(k: Key, a: Bytes, b: Bytes): System {
    System(Overtaken(k, a, b), {}, Checking(0, 1, None, 1, true), map[0 := Found(k, a)])
  }

  lemma BatchComesBetween(k: Key, a: Bytes, b: Bytes) returns (ss: seq<System>, es: seq<Event>)
    requires k != []
    ensures EndsIn(ss, es, Between(k, a, b))
  {
    ss, es := BatchStores(k, a);
    var s0 := Idle(Stored(k, a));
    var s1 := s0.(txns := map[0 := Running(Txn([], 1, false), [], [], {}, true)]);
    ss, es := Extend(ss, es, s0, Begin(0, false), s1);
    var s2 := s1.(txns := map[0 := Found(k, a)]);
    FindingRead(k, a);
    ss, es := Extend(ss, es, s1, Call(0, Get(k)), s2);
    var s3 := s2.(lock := Checking(0, 1, None, 1, true));
    ss, es := Extend(ss, es, s2, TakeLock(0), s3);
    OvertakenIs(k, a, b);
    ss, es := Extend(ss, es, s3, BatchVersion([Write(k, 0, b)]), Between(k, a, b));
  }

  /**
   A transaction whose only key is recorded, checked and unchanged can still commit after a batch that put the key
   between the check and the version: run alone at its commit, it would have read the other value.
   */
  lemma BatchCanOvertake(k: Key, a: Bytes, b: Bytes) returns (ss: seq<System>, es: seq<Event>)
    requires k != [] && a != b
    ensures IsRun(ss, es) && |es| > 0 && es[|es| - 1].CommitVersion?
    ensures
      var s := ss[|es| - 1];
      && Holder(s, 0) && s.lock.quiet && Sized(s)
      && Recorded(s.txns[0].txn, k) && s.txns[0].program == [Get(k)]
      && !IsSerial(s.txns[0].txn, [Get(k)], s.txns[0].results, s.store.hist[s.store.version])
  {
    ss, es := BatchComesBetween(k, a, b);
    var s := Between(k, a, b);
    ss, es := Extend(ss, es, s, CommitVersion, Step(s, CommitVersion));
    OneRead(map[k := b], k);
    assert Write(k, 1, a).(isGet := true) in Found(k, a).txn.ops;
    assert Results(map[k := b], [Get(k)]) == [Some(b)];
  }

  // ---------- A purge beyond a running snapshot ----------

  /** The second put is stored, and the purge has begun; then the first one is gone. */
  function Purging(k: Key, a: Bytes, b: Bytes): Store {
    var both := [Write(k, 1, a), Write(k, 2, b)];
    Store(both, 2, both, both, {}, 2, [map[], map[k := a], map[k := b]])
  }

  function Lost(k: Key, a: Bytes, b: Bytes): Store {
    Store([Write(k, 2, b)], 2, [Write(k, 1, a), Write(k, 2, b)], [Write(k, 2, b)], {}, 2,
          [map[], map[k := a], map[k := b]])
  }

  lemma LostIs(k: Key, a: Bytes, b: Bytes)
    ensures Shadowed(Purging(k, a, b).values, Write(k, 1, a), 2)
    ensures PurgeItem(Purging(k, a, b), Write(k, 1, a)) == Lost(k, a, b)
  {
    var x, y := Write(k, 1, a), Write(k, 2, b);
    assert y in [x, y];
    assert [x, y][..1] == [x] && [x][..0] == [];
    assert Remove([x], x) == [];
    assert Remove([x, y], x) == [y];
  }

  lemma LostRead(k: Key, b: Bytes, r: Running)
    requires k != [] && r == Running(Txn([], 1, false), [], [], {}, false)
    ensures Called([Write(k, 2, b)], r, Get(k)) == Missed(k)
  {
    LookupNothing([Write(k, 2, b)], k, 1);
  }

  /** Two registered transactions share an entry, which goes with the first of them that ends. */
  lemma EntryGoesWithTheOther(k: Key, a: Bytes) returns (ss: seq<System>, es: seq<Event>)
    requires k != []
    ensures EndsIn(ss, es, Idle(Stored(k, a)).(txns := map[0 := Running(Txn([], 1, false), [], [], {}, true)]))
    ensures Register(0) in es && Discard(1) in es
  {
    var r := Running(Txn([], 1, false), [], [], {}, true);
    ss, es := BatchStores(k, a);
    var s0 := Idle(Stored(k, a));
    var s1 := s0.(txns := map[0 := r]);
    ss, es := Extend(ss, es, s0, Begin(0, false), s1);
    var s2 := s1.(inFlight := {1});
    ss, es := Extend(ss, es, s1, Register(0), s2);
    var s3 := s2.(txns := map[0 := r, 1 := r]);
    ss, es := Extend(ss, es, s2, Begin(1, false), s3);
    ss, es := Extend(ss, es, s3, Register(1), s3);
    ss, es := Extend(ss, es, s3, Discard(1), s2);
    ss, es := Extend(ss, es, s2, Forget(1), s1);
  }

  lemma PurgeGoesBeyond(k: Key, a: Bytes, b: Bytes) returns (ss: seq<System>, es: seq<Event>)
    requires k != []
    ensures EndsIn(ss, es, System(Purging(k, a, b), {}, Free, map[0 := Running(Txn([], 1, false), [], [], {}, false)]))
    ensures Register(0) in es && Discard(1) in es
  {
    ss, es := EntryGoesWithTheOther(k, a);
    var r := Running(Txn([], 1, false), [], [], {}, true);
    var s0 := Idle(Stored(k, a)).(txns := map[0 := r]);
    var s1 := s0.(store := Overtaken(k, a, b));
    OvertakenIs(k, a, b);
    ss, es := Extend(ss, es, s0, BatchVersion([Write(k, 0, b)]), s1);
    var s2 := s0.(store := Purging(k, a, b).(low := 0));
    ss, es := Extend(ss, es, s1, StoreOne(Write(k, 2, b)), s2);
    ss, es := Extend(ss, es, s2, Purge(2), System(Purging(k, a, b), {}, Free, map[0 := r.(intact := false)]));
  }

  /** A purge may then drop a value that the other one has yet to read. */
  lemma PurgeCanLoseSnapshot(k: Key, a: Bytes, b: Bytes) returns (ss: seq<System>, es: seq<Event>)
    requires k != []
    ensures IsRun(ss, es) && Register(0) in es && Discard(1) in es && 0 in ss[|es|].txns
    ensures
      var d, r := ss[|es|].store, ss[|es|].txns[0];
      && r.program == [Get(k)] && r.results == [None]
      && r.txn.snapshot < |d.hist| && Results(d.hist[r.txn.snapshot], r.program) == [Some(a)]
  {
    ss, es := PurgeGoesBeyond(k, a, b);
    var r := Running(Txn([], 1, false), [], [], {}, false);
    var s0 := System(Purging(k, a, b), {}, Free, map[0 := r]);
    var s1 := s0.(store := Lost(k, a, b));
    LostIs(k, a, b);
    ss, es := Extend(ss, es, s0, PurgeOne(Write(k, 1, a)), s1);
    LostRead(k, b, r);
    ss, es := Extend(ss, es, s1, Call(0, Get(k)), s1.(txns := map[0 := Missed(k)]));
    OneRead(map[k := a], k);
  }
}
