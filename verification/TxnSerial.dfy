/**
 What every run of the in-memory datastore promises: versions stand for maps, a transaction reads its snapshot, and
 a committed transaction behaves as if it had run alone at its commit, exactly when nothing it depends on changed.
 */
module TxnSerial {
  import opened Memory
  import opened Purge
  import opened Transactions
  import opened TxnStore
  import opened TxnRuns

  ghost predicate Sized(s: System) { |s.store.hist| == s.store.version + 1 }

  ghost predicate StepAt(ss: seq<System>, es: seq<Event>, j: nat)
    requires j < |es| && |ss| == |es| + 1
  {
    Sized(ss[j]) && Enabled(ss[j], es[j]) && ss[j + 1] == Step(ss[j], es[j])
  }

  ghost predicate IsRun(ss: seq<System>, es: seq<Event>) {
    && |ss| == |es| + 1 && ss[0] == NOTHING
    && forall j: nat {:trigger StepAt(ss, es, j)} :: j < |es| ==> StepAt(ss, es, j)
  }

  lemma {:induction false} RunKeepsInv(ss: seq<System>, es: seq<Event>, j: nat)
    requires IsRun(ss, es) && j < |ss|
    ensures Inv(ss[j])
  {
    if j > 0 {
      RunKeepsInv(ss, es, j - 1);
      assert StepAt(ss, es, j - 1);
      EventKeepsInv(ss[j - 1], es[j - 1]);
    }
  }

  /**
   In every run, a read of any version, purged or not, finds what it should exactly when that is nothing or is stored.
   Once no writer of the version or an earlier one is storing, a version that is not purged reads as its map.
   */
  lemma VersionsRefineHistory(ss: seq<System>, es: seq<Event>, j: nat, k: Key, w: nat)
    requires IsRun(ss, es) && j < |ss| && k != []
    ensures
      var d := ss[j].store;
      && |d.hist| == d.version + 1
      && (Lookup(d.values, k, w) == Lookup(d.ever, k, w)
          <==> Lookup(d.ever, k, w) == NO_ITEM || Lookup(d.ever, k, w) in d.values)
      && (w <= d.version ==> Read(d.ever, k, w) == Find(d.hist[w], k))
      && (d.low <= w <= d.version && Settled(d, w) ==> Read(d.values, k, w) == Find(d.hist[w], k))
  {
    RunKeepsInv(ss, es, j);
    ReadsAreRightExactly(ss[j].store, k, w);
    if Settled(ss[j].store, w) {
      SettledReads(ss[j].store, k, w);
    }
  }

  lemma StepGrows(s: System, e: Event)
    requires Sized(s) && Enabled(s, e)
    ensures s.store.hist <= Step(s, e).store.hist
  {
  }

  lemma {:induction false} HistoryOnlyGrows(ss: seq<System>, es: seq<Event>, i: nat, j: nat)
    requires IsRun(ss, es) && i <= j < |ss|
    ensures ss[i].store.hist <= ss[j].store.hist
    decreases j
  {
    if i < j {
      HistoryOnlyGrows(ss, es, i, j - 1);
      assert StepAt(ss, es, j - 1);
      StepGrows(ss[j - 1], es[j - 1]);
    }
  }

  /** In every run, the answers of an intact transaction are those of its program on its snapshot alone. */
  lemma SnapshotReads(ss: seq<System>, es: seq<Event>, j: nat, id: nat)
    requires IsRun(ss, es) && j < |ss| && id in ss[j].txns && ss[j].txns[id].intact
    ensures
      var r, hist := ss[j].txns[id], ss[j].store.hist;
      r.txn.snapshot < |hist| && r.results == Results(hist[r.txn.snapshot], r.program)
  {
    RunKeepsInv(ss, es, j);
    assert RunningRight(ss[j].store, ss[j].txns[id]);
  }

  // ---------- When a transaction is intact ----------

  ghost predicate Runs(ss: seq<System>, i: nat, j: nat, id: nat) {
    forall m :: i <= m <= j < |ss| ==> id in ss[m].txns
  }

  lemma StepKeepsIntact(s: System, e: Event, id: nat)
    requires Sized(s) && Enabled(s, e) && id in s.txns && id in Step(s, e).txns
    ensures Step(s, e).txns[id].txn.snapshot == s.txns[id].txn.snapshot
    ensures Step(s, e).txns[id].intact
            <==> s.txns[id].intact && (e.Purge? ==> e.bound <= s.txns[id].txn.snapshot)
  {
  }

  /** Intact means that no writer was storing at the begin, and that every purge since went no further. */
  lemma {:induction false} IntactExactly(ss: seq<System>, es: seq<Event>, i: nat, j: nat, id: nat)
    requires IsRun(ss, es) && i < j < |ss| && es[i].Begin? && es[i].id == id && Runs(ss, i + 1, j, id)
    ensures ss[j].txns[id].txn.snapshot == ss[i].store.version
    ensures ss[j].txns[id].intact
            <==> (ss[i].store.pending == {}
                  && forall m :: i < m < j && es[m].Purge? ==> es[m].bound <= ss[i].store.version)
    decreases j
  {
    assert StepAt(ss, es, j - 1);
    if i + 1 < j {
      IntactExactly(ss, es, i, j - 1, id);
      StepKeepsIntact(ss[j - 1], es[j - 1], id);
    }
  }

  /** The purge bounds are at most every running snapshot exactly when an entry, or else the version, covers each. */
  lemma PurgeCoversExactly(s: System)
    requires Inv(s)
    ensures (forall bound: nat, id :: IsPurgeBound(s.store.version, s.inFlight, bound) && id in s.txns
                                 ==> bound <= s.txns[id].txn.snapshot)
            <==> (forall id :: id in s.txns ==> Covered(s, s.txns[id].txn.snapshot))
  {
    if s.inFlight == {} {
      assert IsPurgeBound(s.store.version, s.inFlight, s.store.version);
      forall id | id in s.txns ensures s.txns[id].txn.snapshot <= s.store.version {
        assert RunningRight(s.store, s.txns[id]);
      }
    } else {
      var least := LeastOf(s.inFlight);
      assert IsPurgeBound(s.store.version, s.inFlight, least);
    }
  }

  ghost predicate Covered(s: System, snapshot: nat) {
    (exists u :: u in s.inFlight && u <= snapshot) || (s.inFlight == {} && snapshot == s.store.version)
  }

  lemma {:induction false} LeastOf(vs: set<nat>) returns (v: nat)
    requires vs != {}
    ensures v in vs && forall u :: u in vs ==> v <= u
  {
    var w :| w in vs;
    var rest := vs - {w};
    assert forall u :: u in vs ==> u in rest || u == w;
    v := w;
    if rest != {} {
      v := LeastOf(rest);
      v := if w < v then w else v;
    }
  }

  lemma StepKeepsEntry(s: System, e: Event, u: nat)
    requires Sized(s) && Enabled(s, e) && u in s.inFlight && e != Forget(u)
    ensures u in Step(s, e).inFlight
  {
  }

  /** A registered snapshot that is not forgotten holds back every purge. */
  lemma {:induction false} RegisteredIsCovered(ss: seq<System>, es: seq<Event>, i: nat, j: nat, id: nat)
    requires IsRun(ss, es) && i < j < |ss| && es[i] == Register(id) && Runs(ss, i, j, id)
    requires forall m :: i < m < j ==> es[m] != Forget(ss[i].txns[id].txn.snapshot)
    ensures ss[j].txns[id].txn.snapshot == ss[i].txns[id].txn.snapshot
    ensures ss[j].txns[id].txn.snapshot in ss[j].inFlight
    decreases j
  {
    assert StepAt(ss, es, j - 1);
    StepKeepsIntact(ss[j - 1], es[j - 1], id);
    if i + 1 < j {
      RegisteredIsCovered(ss, es, i, j - 1, id);
      StepKeepsEntry(ss[j - 1], es[j - 1], ss[i].txns[id].txn.snapshot);
    }
  }

  /**
   A transaction that begins while no writer is storing, registers before the next purge, and whose entry is not
   dropped while it runs, is intact. The entry is dropped when any transaction with the same snapshot ends, and
   after an hour.
   */
  lemma {:induction false} RegisteredIsIntact(ss: seq<System>, es: seq<Event>, b: nat, i: nat, j: nat, id: nat)
    requires IsRun(ss, es) && b < i < j < |ss| && es[b].Begin? && es[b].id == id && es[i] == Register(id)
    requires Runs(ss, b + 1, j, id) && ss[b].store.pending == {}
    requires forall m :: b < m < i ==> !es[m].Purge?
    requires forall m :: i < m < j ==> es[m] != Forget(ss[b].store.version)
    ensures ss[j].txns[id].intact
  {
    IntactExactly(ss, es, b, j, id);
    IntactExactly(ss, es, b, i, id);
    forall m | b < m < j && es[m].Purge? ensures es[m].bound <= ss[b].store.version {
      assert StepAt(ss, es, m) && i < m;
      RegisteredIsCovered(ss, es, i, m, id);
      IntactExactly(ss, es, b, m, id);
    }
  }

  // ---------- Commits ----------

  /** The intact transaction id holds the commit lock. */
  ghost predicate Holder(s: System, id: nat) { Holds(s, id) && id in s.txns && s.txns[id].intact }

  lemma IntactPasses(s: System, id: nat)
    requires Inv(s) && Holder(s, id)
    ensures
      var d, r := s.store, s.txns[id];
      && r.txn.snapshot < |d.hist| && [] !in d.hist[d.version] && ValidTree(d.promised, d.version)
      && TxnRight(d.promised, r.txn, d.hist[r.txn.snapshot], r.program)
      && Reads(d.promised, r.txn.snapshot, d.hist[r.txn.snapshot])
      && r.results == Results(d.hist[r.txn.snapshot], r.program)
  {
    var d, r := s.store, s.txns[id];
    assert RunningRight(d, r);
    forall k | k != [] ensures Lookup(d.promised, k, r.txn.snapshot) == Lookup(d.values, k, r.txn.snapshot) {
      SettledReads(d, k, r.txn.snapshot);
    }
    SnapshotIsEnough(d.values, d.promised, r.txn, d.hist[r.txn.snapshot], r.program);
  }

  lemma CheckedToIsNoConflict(values: Tree, at: nat, t: Txn)
    requires CheckedTo(values, at, t, |t.ops|)
    ensures NoConflict(values, at, t)
  {
    if t.snapshot != at {
      forall x | x in t.ops ensures SameVersion(values, at, t, x) {
        var a :| 0 <= a < |t.ops| && t.ops[a] == x;
      }
    }
  }

  lemma CheckedIsPassed(s: System, id: nat)
    requires Inv(s) && Enabled(s, CommitVersion) && Holder(s, id) && s.lock.quiet
    ensures
      var d, r := s.store, s.txns[id];
      Passed(d.promised, d.version, r.txn, d.hist[r.txn.snapshot], r.program, s.lock.since, d.hist[s.lock.since])
  {
    var d, r := s.store, s.txns[id];
    IntactPasses(s, id);
    assert RunningRight(d, r);
    forall k | k != []
      ensures Lookup(d.promised, k, r.txn.snapshot) == Lookup(d.values, k, r.txn.snapshot)
      ensures Lookup(d.promised, k, s.lock.since) == Lookup(d.values, k, s.lock.since)
    {
      SettledReads(d, k, r.txn.snapshot);
      SettledReads(d, k, s.lock.since);
    }
    SameReadsSameCheck(d.values, d.promised, s.lock.since, r.txn, s.lock.i);
    CheckedToIsNoConflict(d.promised, s.lock.since, r.txn);
  }

  lemma HolderIsSerialExactly(s: System, id: nat)
    requires Inv(s) && Holder(s, id)
    ensures
      var d, r := s.store, s.txns[id];
      && r.txn.snapshot < |d.hist|
      && (IsSerial(r.txn, r.program, r.results, d.hist[d.version])
          <==> Harmless(r.txn, r.program, d.hist[r.txn.snapshot], d.hist[d.version]))
  {
    var d, r := s.store, s.txns[id];
    IntactPasses(s, id);
    SerialExactly(d.promised, d.version, r.txn, d.hist[r.txn.snapshot], r.program, d.hist[d.version]);
  }

  /**
   In every run, an intact transaction that commits leaves the latest map with its writes on top, and it has run as
   if alone at its commit exactly when what it read before writing is unchanged and what it deleted in vain is
   still absent: whatever batches did between its check and its version.
   */
  lemma CommitsSerializeExactly(ss: seq<System>, es: seq<Event>, j: nat, id: nat)
    requires IsRun(ss, es) && j < |es| && es[j].CommitVersion? && Holder(ss[j], id)
    ensures
      var d, r := ss[j].store, ss[j].txns[id];
      && r.txn.snapshot < |d.hist| == d.version + 1
      && ss[j + 1].store.hist == d.hist + [Overlay(d.hist[d.version], r.txn.ops)]
      && (IsSerial(r.txn, r.program, r.results, d.hist[d.version])
          <==> Harmless(r.txn, r.program, d.hist[r.txn.snapshot], d.hist[d.version]))
  {
    RunKeepsInv(ss, es, j);
    assert StepAt(ss, es, j);
    HolderIsSerialExactly(ss[j], id);
  }

  /** No batch has changed a key of the program since the check began, and none was storing then. */
  ghost predicate Undisturbed(s: System, id: nat)
    requires Holder(s, id)
  {
    && s.lock.quiet && s.lock.since <= s.store.version < |s.store.hist|
    && forall op :: op in s.txns[id].program ==>
         Find(s.store.hist[s.lock.since], op.key) == Find(s.store.hist[s.store.version], op.key)
  }

  /**
   In every run, if no batch disturbs the commit, the transaction has run as if alone at its commit exactly when the
   keys that it met and did not record are still absent.
   */
  lemma CommitsSerialize(ss: seq<System>, es: seq<Event>, j: nat, id: nat)
    requires IsRun(ss, es) && j < |es| && es[j].CommitVersion? && Holder(ss[j], id) && Undisturbed(ss[j], id)
    ensures
      var d, r := ss[j].store, ss[j].txns[id];
      IsSerial(r.txn, r.program, r.results, d.hist[d.version])
      <==> AbsentStaysAbsent(r.txn, r.program, d.hist[d.version])
  {
    var s, d, r := ss[j], ss[j].store, ss[j].txns[id];
    RunKeepsInv(ss, es, j);
    assert StepAt(ss, es, j);
    CheckedIsPassed(s, id);
    IntactPasses(s, id);
    LaterCommitIsSerialExactly(d.promised, d.version, r.txn, d.hist[r.txn.snapshot], r.program, s.lock.since,
                               d.hist[s.lock.since], d.hist[d.version]);
  }

  ghost predicate Puts(program: seq<Op>, k: Key) { exists op :: op in program && op.Put? && op.key == k }

  /** Every key that the program meets is stored in the snapshot, or put by the program itself. */
  ghost predicate MeetsStoredKeys(values: Tree, r: Running) {
    forall op :: op in r.program ==>
      Lookup(values, op.key, r.txn.snapshot) != NO_ITEM || Puts(r.program, op.key)
  }

  lemma StoredKeysAreRecorded(values: Tree, r: Running, base: Map)
    requires TxnRight(values, r.txn, base, r.program) && MeetsStoredKeys(values, r)
    ensures forall op :: op in r.program ==> Recorded(r.txn, op.key)
  {
    forall op | op in r.program ensures Recorded(r.txn, op.key) {
      assert Met(values, r.txn, op);
      if Lookup(values, op.key, r.txn.snapshot) == NO_ITEM {
        var p :| p in r.program && p.Put? && p.key == op.key;
        assert Met(values, r.txn, p);
      }
    }
  }

  /** A transaction that only meets stored keys, or keys that it puts, is serial if no batch disturbs its commit. */
  lemma StoredKeysSerialize(ss: seq<System>, es: seq<Event>, j: nat, id: nat)
    requires IsRun(ss, es) && j < |es| && es[j].CommitVersion? && Holder(ss[j], id) && Undisturbed(ss[j], id)
    requires MeetsStoredKeys(ss[j].store.values, ss[j].txns[id])
    ensures
      var d, r := ss[j].store, ss[j].txns[id];
      && r.results == Results(d.hist[d.version], r.program)
      && ss[j + 1].store.hist == d.hist + [Effect(d.hist[d.version], r.program)]
  {
    var d, r := ss[j].store, ss[j].txns[id];
    CommitsSerialize(ss, es, j, id);
    CommitsSerializeExactly(ss, es, j, id);
    RunKeepsInv(ss, es, j);
    assert RunningRight(d, r);
    StoredKeysAreRecorded(d.values, r, d.hist[r.txn.snapshot]);
  }
}
