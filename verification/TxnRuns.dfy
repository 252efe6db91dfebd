/**
 Runs of the in-memory datastore: any number of transactions, batches and purges, interleaved one access of the
 shared store at a time (datastore/memory/memory.go, txn.go, batch.go). A transaction that commits holds the commit
 lock from its check to its last store; beginning a transaction, a batch and a purge do not take that lock. The
 calls on one transaction, its commit included, come one after the other.
 */
module TxnRuns {
  import opened Options
  import opened ByteOrder
  import opened Memory
  import opened Purge
  import opened Transactions
  import opened TxnStore

  /**
   A transaction with the calls it has made and the answers it got; a write answers None. `asked` has the calls that
   the store answered. The transaction is `intact` if no writer was still storing when it began, and no purge since
   then went beyond its snapshot.
   */
  datatype Running = Running(
    txn: Txn, program: seq<Op>, results: seq<Option<Bytes>>, asked: set<nat>, intact: bool)

  /**
   The commit lock: free, held by a transaction that has checked its first i items, or held while the items of a
   version are stored. `expected` is the version that the next item has in the snapshot, once it is read. `since` and
   `quiet` say what version the check began at, and if no writer was storing then.
   */
  datatype Lock =
    | Free
    | Checking(id: nat, i: nat, expected: Option<nat>, since: nat, quiet: bool)
    | Storing(version: nat)

  /** `inFlight` holds the registered snapshots; equal ones share an entry. */
  datatype System = System(store: Store, inFlight: set<nat>, lock: Lock, txns: map<nat, Running>)

  /** `CheckItem` reads the store at a version that was loaded before, so it may be an earlier one by then. */
  datatype Event =
    | Begin(id: nat, readOnly: bool)
    | Register(id: nat)
    | Call(id: nat, op: Op)
    | Discard(id: nat)
    | Forget(snapshot: nat)
    | TakeLock(id: nat)
    | ReadExpected
    | CheckItem(version: nat)
    | CommitVersion
    | Release
    | BatchVersion(writes: seq<Item>)
    | StoreOne(x: Item)
    | Purge(bound: nat)
    | PurgeOne(x: Item)

  const NOTHING := System(Store([], 0, [], [], {}, 0, [map[]]), {}, Free, map[])

  // ---------- The steps ----------

  function Started(d: Store, readOnly: bool): Running {
    Running(Txn([], d.version, readOnly), [], [], {}, d.pending == {})
  }

  function Called(values: Tree, r: Running, op: Op): Running {
    if r.txn.readOnly && !op.Get? then r
    else Running(AfterOp(values, r.txn, op), r.program + [op],
                 r.results + [if op.Get? then View(values, r.txn, op.key) else None],
                 if op.Get? && OwnItem(r.txn, op.key).key == [] then r.asked + {|r.program|} else r.asked, r.intact)
  }

  /** What `checkForConflicts` is after: the key has, at this version, the version it has in the snapshot. */
  predicate SameVersion(values: Tree, version: nat, t: Txn, x: Item) {
    VersionAt(values, x, t.snapshot) == VersionAt(values, x, version)
  }

  function VersionAt(values: Tree, x: Item, w: nat): nat { Lookup(values, NewKey(x.key), w).version }

  function Purged(r: Running, bound: nat): Running { r.(intact := r.intact && bound <= r.txn.snapshot) }

  predicate Holds(s: System, id: nat) { s.lock.Checking? && s.lock.id == id }

  ghost predicate Enabled(s: System, e: Event) {
    match e
    case Begin(id, _) => id !in s.txns
    case Register(id) => id in s.txns && s.txns[id].program == []
    case Call(id, op) => id in s.txns && !Holds(s, id) && op.key != []
    case Discard(id) => id in s.txns && !Holds(s, id)
    case Forget(_) => true
    case TakeLock(id) => s.lock.Free? && id in s.txns && !s.txns[id].txn.readOnly
    case ReadExpected =>
      s.lock.Checking? && s.lock.id in s.txns && s.lock.i < |s.txns[s.lock.id].txn.ops| && s.lock.expected == None
    case CheckItem(version) =>
      && s.lock.Checking? && s.lock.id in s.txns && s.lock.i < |s.txns[s.lock.id].txn.ops| && s.lock.expected.Some?
      && s.lock.since <= version <= s.store.version
    case CommitVersion => s.lock.Checking? && s.lock.id in s.txns && s.lock.i == |s.txns[s.lock.id].txn.ops|
    case Release => s.lock.Storing? && forall x :: x in s.store.pending ==> x.version != s.lock.version
    case BatchVersion(writes) => DistinctWrites(writes) && forall x :: x in writes ==> x.key != [] && !x.isGet
    case StoreOne(x) => x in s.store.pending
    case Purge(bound) => IsPurgeBound(s.store.version, s.inFlight, bound)
    case PurgeOne(x) => x in s.store.values && Shadowed(s.store.values, x, s.store.low)
  }

  ghost function Step(s: System, e: Event): System
    requires Enabled(s, e) && |s.store.hist| == s.store.version + 1
  {
    match e
    case Begin(id, readOnly) => s.(txns := s.txns[id := Started(s.store, readOnly)])
    case Register(id) => s.(inFlight := s.inFlight + {s.txns[id].txn.snapshot})
    case Call(id, op) => s.(txns := s.txns[id := Called(s.store.values, s.txns[id], op)])
    case Discard(id) => s.(txns := s.txns - {id})
    case Forget(snapshot) => s.(inFlight := s.inFlight - {snapshot})
    case TakeLock(id) =>
      var t := s.txns[id].txn;
      s.(lock := Checking(id, if t.snapshot == s.store.version then |t.ops| else 0, None, s.store.version,
                          s.store.pending == {}))
    case ReadExpected =>
      var t := s.txns[s.lock.id].txn;
      s.(lock := s.lock.(expected := Some(VersionAt(s.store.values, t.ops[s.lock.i], t.snapshot))))
    case CheckItem(version) =>
      var x := s.txns[s.lock.id].txn.ops[s.lock.i];
      if s.lock.expected == Some(VersionAt(s.store.values, x, version))
      then s.(lock := s.lock.(i := s.lock.i + 1, expected := None))
      else s.(lock := Free, txns := s.txns - {s.lock.id})
    case CommitVersion =>
      s.(store := Take(s.store, s.txns[s.lock.id].txn.ops), lock := Storing(s.store.version + 1),
         txns := s.txns - {s.lock.id})
    case Release => s.(lock := Free)
    case BatchVersion(writes) => s.(store := Take(s.store, writes))
    case StoreOne(x) => s.(store := StoreItem(s.store, x))
    case Purge(bound) =>
      s.(store := StartPurge(s.store, bound), txns := map id | id in s.txns :: Purged(s.txns[id], bound))
    case PurgeOne(x) => s.(store := PurgeItem(s.store, x))
  }

  // ---------- The invariant ----------

  /** Recorded writes are sorted and carry the version after the snapshot, whatever the reads found. */
  ghost predicate OpsShaped(t: Txn) {
    Sorted(t.ops) && forall x :: x in t.ops && !x.isGet ==> x.key != [] && x.version == t.snapshot + 1
  }

  ghost predicate IntactRight(d: Store, r: Running) {
    && d.low <= r.txn.snapshot < |d.hist| && Settled(d, r.txn.snapshot)
    && TxnRight(d.values, r.txn, d.hist[r.txn.snapshot], r.program)
    && r.results == Results(d.hist[r.txn.snapshot], r.program)
  }

  ghost predicate RunningRight(d: Store, r: Running) {
    r.txn.snapshot <= d.version && OpsShaped(r.txn) && (r.intact ==> IntactRight(d, r))
  }

  /** The first i items had, at version `at`, the version they had in the snapshot. */
  ghost predicate CheckedTo(values: Tree, at: nat, t: Txn, i: nat)
    requires i <= |t.ops|
  {
    t.snapshot == at || forall a :: 0 <= a < i ==> SameVersion(values, at, t, t.ops[a])
  }

  /** What has been read of the next item is still so. */
  ghost predicate ExpectedRight(values: Tree, t: Txn, i: nat, expected: Option<nat>) {
    expected.Some? ==> i < |t.ops| && expected.value == VersionAt(values, t.ops[i], t.snapshot)
  }

  /**
   Batches may take versions during the check, so an item is known unchanged only up to the version at which the
   check began, and only if no writer was still storing then.
   */
  ghost predicate LockRight(s: System) {
    s.lock.Checking? ==>
      && s.lock.id in s.txns && s.lock.i <= |s.txns[s.lock.id].txn.ops| && !s.txns[s.lock.id].txn.readOnly
      && s.txns[s.lock.id].txn.snapshot <= s.lock.since <= s.store.version
      && (s.lock.quiet ==> Settled(s.store, s.lock.since))
      && (s.txns[s.lock.id].intact ==> ExpectedRight(s.store.values, s.txns[s.lock.id].txn, s.lock.i, s.lock.expected))
      && (s.lock.quiet && s.txns[s.lock.id].intact ==>
            CheckedTo(s.store.values, s.lock.since, s.txns[s.lock.id].txn, s.lock.i))
  }

  ghost predicate Inv(s: System) {
    && StoreRight(s.store) && LockRight(s)
    && (forall u :: u in s.inFlight ==> u <= s.store.version)
    && forall id :: id in s.txns ==> RunningRight(s.store, s.txns[id])
  }

  // ---------- What one transaction depends on ----------

  /** A transaction depends on the store only through its snapshot. */
  lemma SnapshotIsEnough(values: Tree, values': Tree, t: Txn, base: Map, program: seq<Op>)
    requires TxnRight(values, t, base, program) && SameReads(values', values, t.snapshot)
    ensures TxnRight(values', t, base, program)
  {
    forall x | x in t.ops ensures ItemRight(values', t.snapshot, x) { assert ItemRight(values, t.snapshot, x); }
    forall k | k != [] ensures View(values', t, k) == Find(Effect(base, program), k) {
      assert View(values, t, k) == Find(Effect(base, program), k);
    }
    forall op | op in program ensures Met(values', t, op) { assert Met(values, t, op); }
  }

  lemma TakeKeepsRunning(d: Store, ops: seq<Item>, r: Running)
    requires StoreRight(d) && DistinctWrites(ops) && RunningRight(d, r)
    ensures RunningRight(Take(d, ops), r)
  {
    if r.intact {
      TakeKeepsSettled(d, ops, r.txn.snapshot);
    }
  }

  lemma StoreItemKeepsRunning(d: Store, x: Item, r: Running)
    requires StoreRight(d) && x in d.pending && RunningRight(d, r)
    ensures RunningRight(StoreItem(d, x), r)
  {
    if r.intact {
      StoreItemReads(d, x, r.txn.snapshot);
      SnapshotIsEnough(d.values, StoreItem(d, x).values, r.txn, d.hist[r.txn.snapshot], r.program);
    }
  }

  lemma PurgeItemKeepsRunning(d: Store, x: Item, r: Running)
    requires StoreRight(d) && x in d.values && Shadowed(d.values, x, d.low) && RunningRight(d, r)
    ensures RunningRight(PurgeItem(d, x), r)
  {
    if r.intact {
      PurgeItemReads(d, x, r.txn.snapshot);
      SnapshotIsEnough(d.values, PurgeItem(d, x).values, r.txn, d.hist[r.txn.snapshot], r.program);
    }
  }

  lemma RecordKeepsShape(t: Txn, x: Item)
    requires OpsShaped(t) && (x.isGet || (x.key != [] && x.version == t.snapshot + 1))
    ensures OpsShaped(Record(t, x))
  {
    InsertIsSorted(t.ops, x);
  }

  lemma CallKeepsShape(values: Tree, t: Txn, op: Op)
    requires OpsShaped(t) && op.key != []
    ensures OpsShaped(AfterOp(values, t, op)) && AfterOp(values, t, op).snapshot == t.snapshot
  {
    if !op.Put? && OwnItem(t, op.key).key == [] {
      RecordKeepsShape(t, ReadItem(values, t, op.key));
    }
    if !op.Get? {
      RecordKeepsShape(if op.Put? then t else AfterRead(values, t, op.key),
                       Item(op.key, t.snapshot + 1, if op.Put? then op.val else [], op.Delete?, false));
    }
  }

  lemma CallKeepsIntact(d: Store, r: Running, op: Op)
    requires StoreRight(d) && IntactRight(d, r) && op.key != []
    ensures IntactRight(d, Called(d.values, r, op))
  {
    if op.Get? || !r.txn.readOnly {
      StoredIsValid(d);
      OpKeepsRight(d.values, d.version, r.txn, d.hist[r.txn.snapshot], r.program, op);
      EffectOfNext(d.hist[r.txn.snapshot], r.program, op);
    }
  }

  lemma CallKeepsRunning(d: Store, r: Running, op: Op)
    requires StoreRight(d) && RunningRight(d, r) && op.key != []
    ensures RunningRight(d, Called(d.values, r, op))
  {
    CallKeepsShape(d.values, r.txn, op);
    if r.intact {
      CallKeepsIntact(d, r, op);
    }
  }

  lemma StartedIsRight(d: Store, readOnly: bool)
    requires StoreRight(d)
    ensures RunningRight(d, Started(d, readOnly))
  {
    var t := Txn([], d.version, readOnly);
    if d.pending == {} {
      forall k | k != [] ensures View(d.values, t, k) == Find(Effect(d.hist[d.version], []), k) {
        SettledReads(d, k, d.version);
      }
    }
  }

  lemma ShapedIsDistinct(t: Txn)
    requires OpsShaped(t)
    ensures DistinctWrites(t.ops)
  {
    forall i, j | 0 <= i < j < |t.ops| && !t.ops[i].isGet && !t.ops[j].isGet ensures t.ops[i].key != t.ops[j].key {
      assert t.ops[i] in t.ops && t.ops[j] in t.ops && Before(t.ops[i], t.ops[j]);
      LessIrreflexive(t.ops[i].key);
    }
  }

  // ---------- What the check has seen ----------

  /** An item that is unchanged at a version was unchanged at every earlier one since the snapshot. */
  lemma UnchangedEarlier(values: Tree, version: nat, t: Txn, x: Item, at: nat, w: nat)
    requires ValidTree(values, version) && t.snapshot <= at <= w && SameVersion(values, w, t, x)
    ensures SameVersion(values, at, t, x)
  {
    var k := NewKey(x.key);
    LookupIsNewest(values, k, t.snapshot);
    LookupIsNewest(values, k, at);
    LookupIsNewest(values, k, w);
  }

  lemma NextCheck(values: Tree, version: nat, at: nat, t: Txn, i: nat, w: nat)
    requires ValidTree(values, version) && t.snapshot <= at <= w
    requires i < |t.ops| && CheckedTo(values, at, t, i) && SameVersion(values, w, t, t.ops[i])
    ensures CheckedTo(values, at, t, i + 1)
  {
    UnchangedEarlier(values, version, t, t.ops[i], at, w);
  }

  lemma SameReadsSameCheck(values: Tree, values': Tree, at: nat, t: Txn, i: nat)
    requires i <= |t.ops| && CheckedTo(values, at, t, i)
    requires SameReads(values', values, t.snapshot) && SameReads(values', values, at)
    ensures CheckedTo(values', at, t, i)
  {
    if t.snapshot != at {
      forall a | 0 <= a < i ensures SameVersion(values', at, t, t.ops[a]) {
        assert SameVersion(values, at, t, t.ops[a]) && NewKey(t.ops[a].key) != [];
      }
    }
  }

  lemma SameReadsSameExpected(values: Tree, values': Tree, t: Txn, i: nat, expected: Option<nat>)
    requires ExpectedRight(values, t, i, expected) && SameReads(values', values, t.snapshot)
    ensures ExpectedRight(values', t, i, expected)
  {
    if expected.Some? {
      assert NewKey(t.ops[i].key) != [];
    }
  }

  lemma TakeKeepsLock(s: System, ops: seq<Item>)
    requires Inv(s) && DistinctWrites(ops)
    ensures LockRight(s.(store := Take(s.store, ops)))
  {
    if s.lock.Checking? && s.lock.quiet {
      TakeKeepsSettled(s.store, ops, s.lock.since);
    }
  }

  lemma StoreItemKeepsLock(s: System, x: Item)
    requires Inv(s) && x in s.store.pending
    ensures LockRight(s.(store := StoreItem(s.store, x)))
  {
    if s.lock.Checking? && s.txns[s.lock.id].intact {
      var t := s.txns[s.lock.id].txn;
      assert RunningRight(s.store, s.txns[s.lock.id]);
      StoreItemReads(s.store, x, t.snapshot);
      SameReadsSameExpected(s.store.values, StoreItem(s.store, x).values, t, s.lock.i, s.lock.expected);
      if s.lock.quiet {
        StoreItemReads(s.store, x, s.lock.since);
        SameReadsSameCheck(s.store.values, StoreItem(s.store, x).values, s.lock.since, t, s.lock.i);
      }
    }
  }

  lemma PurgeItemKeepsLock(s: System, x: Item)
    requires Inv(s) && x in s.store.values && Shadowed(s.store.values, x, s.store.low)
    ensures LockRight(s.(store := PurgeItem(s.store, x)))
  {
    if s.lock.Checking? && s.txns[s.lock.id].intact {
      var t := s.txns[s.lock.id].txn;
      assert RunningRight(s.store, s.txns[s.lock.id]);
      PurgeItemReads(s.store, x, t.snapshot);
      SameReadsSameExpected(s.store.values, PurgeItem(s.store, x).values, t, s.lock.i, s.lock.expected);
      if s.lock.quiet {
        PurgeItemReads(s.store, x, s.lock.since);
        SameReadsSameCheck(s.store.values, PurgeItem(s.store, x).values, s.lock.since, t, s.lock.i);
      }
    }
  }

  // ---------- Every event keeps the invariant ----------

  lemma SetTxn(s: System, id: nat, r: Running)
    requires Inv(s) && RunningRight(s.store, r) && !Holds(s, id)
    ensures Inv(s.(txns := s.txns[id := r]))
  {
    var s' := s.(txns := s.txns[id := r]);
    forall i | i in s'.txns ensures RunningRight(s'.store, s'.txns[i]) {
      assert i != id ==> RunningRight(s.store, s.txns[i]);
    }
  }

  lemma DropTxn(s: System, id: nat)
    requires Inv(s) && !Holds(s, id)
    ensures Inv(s.(txns := s.txns - {id}))
  {
    var s' := s.(txns := s.txns - {id});
    forall i | i in s'.txns ensures RunningRight(s'.store, s'.txns[i]) {
      assert RunningRight(s.store, s.txns[i]);
    }
  }

  lemma TakeKeepsInv(s: System, ops: seq<Item>)
    requires Inv(s) && DistinctWrites(ops) && forall x :: x in ops && !x.isGet ==> x.key != []
    ensures Inv(s.(store := Take(s.store, ops)))
  {
    TakeKeepsRight(s.store, ops);
    TakeKeepsLock(s, ops);
    forall id | id in s.txns ensures RunningRight(Take(s.store, ops), s.txns[id]) {
      TakeKeepsRunning(s.store, ops, s.txns[id]);
    }
  }

  lemma CommitKeepsInv(s: System)
    requires Inv(s) && Enabled(s, CommitVersion)
    ensures Inv(Step(s, CommitVersion))
  {
    var id, v := s.lock.id, s.store.version + 1;
    assert RunningRight(s.store, s.txns[id]);
    ShapedIsDistinct(s.txns[id].txn);
    var free := s.(lock := Storing(v));
    TakeKeepsInv(free, s.txns[id].txn.ops);
    DropTxn(free.(store := Take(s.store, s.txns[id].txn.ops)), id);
  }

  lemma CheckKeepsInv(s: System, version: nat)
    requires Inv(s) && Enabled(s, CheckItem(version))
    ensures Inv(Step(s, CheckItem(version)))
  {
    var t := s.txns[s.lock.id].txn;
    if s.lock.expected == Some(VersionAt(s.store.values, t.ops[s.lock.i], version)) {
      if s.lock.quiet && s.txns[s.lock.id].intact {
        StoredIsValid(s.store);
        NextCheck(s.store.values, s.store.version, s.lock.since, t, s.lock.i, version);
      }
    } else {
      DropTxn(s.(lock := Free), s.lock.id);
    }
  }

  lemma StoreKeepsInv(s: System, x: Item)
    requires Inv(s) && x in s.store.pending
    ensures Inv(s.(store := StoreItem(s.store, x)))
  {
    StoreItemKeepsRight(s.store, x);
    StoreItemKeepsLock(s, x);
    forall id | id in s.txns ensures RunningRight(StoreItem(s.store, x), s.txns[id]) {
      StoreItemKeepsRunning(s.store, x, s.txns[id]);
    }
  }

  lemma PurgeKeepsInv(s: System, bound: nat)
    requires Inv(s) && bound <= s.store.version
    ensures Inv(s.(store := StartPurge(s.store, bound), txns := map id | id in s.txns :: Purged(s.txns[id], bound)))
  {
    forall id | id in s.txns ensures RunningRight(StartPurge(s.store, bound), Purged(s.txns[id], bound)) {
      assert RunningRight(s.store, s.txns[id]);
    }
  }

  lemma PurgeOneKeepsInv(s: System, x: Item)
    requires Inv(s) && x in s.store.values && Shadowed(s.store.values, x, s.store.low)
    ensures Inv(s.(store := PurgeItem(s.store, x)))
  {
    PurgeItemKeepsRight(s.store, x);
    PurgeItemKeepsLock(s, x);
    forall id | id in s.txns ensures RunningRight(PurgeItem(s.store, x), s.txns[id]) {
      PurgeItemKeepsRunning(s.store, x, s.txns[id]);
    }
  }

  lemma EventKeepsInv(s: System, e: Event)
    requires Inv(s) && Enabled(s, e)
    ensures Inv(Step(s, e))
  {
    match e
    case Begin(id, readOnly) =>
      StartedIsRight(s.store, readOnly);
      SetTxn(s, id, Started(s.store, readOnly));
    case Register(id) => assert RunningRight(s.store, s.txns[id]);
    case Call(id, op) =>
      CallKeepsRunning(s.store, s.txns[id], op);
      SetTxn(s, id, Called(s.store.values, s.txns[id], op));
    case Discard(id) => DropTxn(s, id);
    case Forget(_) =>
    case TakeLock(id) => assert RunningRight(s.store, s.txns[id]);
    case ReadExpected =>
    case CheckItem(version) => CheckKeepsInv(s, version);
    case CommitVersion => CommitKeepsInv(s);
    case Release =>
    case BatchVersion(writes) => TakeKeepsInv(s, writes);
    case StoreOne(x) => StoreKeepsInv(s, x);
    case Purge(bound) => PurgeKeepsInv(s, bound);
    case PurgeOne(x) => PurgeOneKeepsInv(s, x);
  }
}
