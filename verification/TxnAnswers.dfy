/**
 When a transaction has got the answers of its snapshot, whatever writers and purges did: exactly when every answer that
 came from the store is right. What it recorded itself never goes wrong afterwards.
 */
module TxnAnswers {
  import opened Options
  import opened Memory
  import opened Transactions
  import opened TxnStore
  import opened TxnRuns
  import opened TxnSerial

  /** Every answer that came from the store is what the program, run on the map alone, would get there. */
  ghost predicate AskedRight(r: Running, base: Map) {
    && |r.results| == |r.program|
    && forall i :: i in r.asked ==>
         i < |r.program| && r.results[i] == Result(Effect(base, r.program[..i]), r.program[i])
  }

  /** What the transaction has recorded shows what its program leaves on the map. */
  ghost predicate OwnShows(t: Txn, m: Map) {
    forall k :: k != [] && OwnItem(t, k).key != [] ==> AsOption(OwnItem(t, k)) == Find(m, k)
  }

  ghost predicate Follows(r: Running, base: Map) {
    OwnShows(r.txn, Effect(base, r.program)) && r.results == Results(base, r.program)
  }

  ghost predicate Bounded(t: Txn) { OpsShaped(t) && forall x :: x in t.ops ==> x.version <= t.snapshot + 1 }

  // ---------- Recording ----------

  lemma OwnIs(t: Txn, k: Key)
    requires Bounded(t) && k != []
    ensures OwnItem(t, k).key == if Recorded(t, k) then k else []
  {
    LookupIsNewest(t.ops, k, t.snapshot + 1);
  }

  lemma RecordOwn(t: Txn, x: Item, k: Key)
    requires Bounded(t) && k != [] && x.version <= t.snapshot + 1
    requires x.version == t.snapshot + 1 || !Recorded(t, x.key)
    ensures OwnItem(Record(t, x), k) == if k == x.key then x else OwnItem(t, k)
  {
    if k == x.key {
      LookupInserted(t.ops, x, t.snapshot + 1);
    } else {
      LookupOther(t.ops, x, k, t.snapshot + 1);
    }
  }

  lemma RecordKeepsBounded(t: Txn, x: Item)
    requires Bounded(t) && x.version <= t.snapshot + 1 && (x.isGet || (x.key != [] && x.version == t.snapshot + 1))
    ensures Bounded(Record(t, x))
  {
    RecordKeepsShape(t, x);
    InsertIsSorted(t.ops, x);
  }

  lemma WriteFollows(t: Txn, m: Map, x: Item)
    requires Bounded(t) && OwnShows(t, m) && x.key != [] && !x.isGet && x.version == t.snapshot + 1
    ensures Bounded(Record(t, x))
    ensures OwnShows(Record(t, x), if x.isDeleted then m - {x.key} else m[x.key := x.val])
  {
    RecordKeepsBounded(t, x);
    forall k | k != [] && OwnItem(Record(t, x), k).key != []
      ensures AsOption(OwnItem(Record(t, x), k)) == Find(if x.isDeleted then m - {x.key} else m[x.key := x.val], k)
    {
      RecordOwn(t, x, k);
    }
  }

  /** What the store answers: the item of the key, or none. */
  lemma StoreAnswers(values: Tree, t: Txn, k: Key)
    requires Sorted(values) && Bounded(t) && k != [] && OwnItem(t, k).key == []
    ensures
      var x := ReadItem(values, t, k);
      x.isGet && x.version <= t.snapshot && (x.key == k || x.key == []) && AfterRead(values, t, k) == Record(t, x)
  {
    LookupIsNewest(values, k, t.snapshot);
  }

  lemma ReadKeepsBounded(values: Tree, t: Txn, k: Key)
    requires Sorted(values) && Bounded(t) && k != []
    ensures Bounded(AfterRead(values, t, k))
  {
    if OwnItem(t, k).key == [] {
      StoreAnswers(values, t, k);
      RecordKeepsBounded(t, ReadItem(values, t, k));
    }
  }

  lemma ReadKeepsOthers(values: Tree, t: Txn, k: Key, j: Key)
    requires Sorted(values) && Bounded(t) && k != [] && j != [] && j != k
    ensures OwnItem(AfterRead(values, t, k), j) == OwnItem(t, j)
  {
    if OwnItem(t, k).key == [] {
      StoreAnswers(values, t, k);
      LookupOther(t.ops, ReadItem(values, t, k), j, t.snapshot + 1);
    }
  }

  /** The key that was read then shows the answer, if that is an item. */
  lemma ReadOwn(values: Tree, t: Txn, k: Key)
    requires Sorted(values) && Bounded(t) && k != []
    ensures
      var x := OwnItem(AfterRead(values, t, k), k);
      x.key != [] ==> AsOption(x) == View(values, t, k)
  {
    if OwnItem(t, k).key == [] {
      StoreAnswers(values, t, k);
      OwnIs(t, k);
      var x := ReadItem(values, t, k);
      if x.key == k {
        RecordOwn(t, x, k);
      } else {
        LookupOther(t.ops, x, k, t.snapshot + 1);
      }
    }
  }

  /** A transaction that differs in one key shows a map that differs there. */
  lemma ShowsBut(t: Txn, t': Txn, m: Map, m': Map, k: Key)
    requires OwnShows(t, m) && k != []
    requires forall j :: j != [] && j != k ==> OwnItem(t', j) == OwnItem(t, j) && Find(m', j) == Find(m, j)
    requires OwnItem(t', k).key != [] ==> AsOption(OwnItem(t', k)) == Find(m', k)
    ensures OwnShows(t', m')
  {
  }

  /** A read keeps what is shown, if the answer is right. */
  lemma ReadFollows(values: Tree, t: Txn, m: Map, m': Map, k: Key)
    requires Sorted(values) && Bounded(t) && k != [] && OwnShows(t, m)
    requires View(values, t, k) == Find(m', k) && forall j :: j != k ==> Find(m', j) == Find(m, j)
    ensures Bounded(AfterRead(values, t, k)) && OwnShows(AfterRead(values, t, k), m')
  {
    ReadKeepsBounded(values, t, k);
    ReadOwn(values, t, k);
    forall j | j != [] && j != k ensures OwnItem(AfterRead(values, t, k), j) == OwnItem(t, j) {
      ReadKeepsOthers(values, t, k, j);
    }
    ShowsBut(t, AfterRead(values, t, k), m, m', k);
  }

  lemma DeleteFollows(values: Tree, t: Txn, m: Map, k: Key)
    requires Sorted(values) && Bounded(t) && k != [] && OwnShows(t, m) && !t.readOnly
    ensures Bounded(AfterOp(values, t, Delete(k))) && OwnShows(AfterOp(values, t, Delete(k)), m - {k})
  {
    if View(values, t, k) == None {
      ReadFollows(values, t, m, m - {k}, k);
    } else {
      DeletedFollows(values, t, m, k);
    }
  }

  /** A delete of something writes, so that what was read no longer matters. */
  lemma DeletedFollows(values: Tree, t: Txn, m: Map, k: Key)
    requires Sorted(values) && Bounded(t) && k != [] && OwnShows(t, m)
    ensures
      var t' := Record(AfterRead(values, t, k), Item(k, t.snapshot + 1, [], true, false));
      Bounded(t') && OwnShows(t', m - {k})
  {
    var x := Item(k, t.snapshot + 1, [], true, false);
    var read := AfterRead(values, t, k);
    ReadKeepsBounded(values, t, k);
    RecordKeepsBounded(read, x);
    RecordOwn(read, x, k);
    forall j | j != [] && j != k ensures OwnItem(Record(read, x), j) == OwnItem(t, j) {
      RecordOwn(read, x, j);
      ReadKeepsOthers(values, t, k, j);
    }
    ShowsBut(t, Record(read, x), m, m - {k}, k);
  }

  // ---------- Calls ----------

  lemma AskedBefore(values: Tree, r: Running, op: Op, base: Map)
    requires |r.results| == |r.program| && (forall i :: i in r.asked ==> i < |r.program|)
    ensures
      var r' := Called(values, r, op);
      && |r'.results| == |r'.program| && (forall i :: i in r'.asked ==> i < |r'.program|)
      && (AskedRight(r', base) ==> AskedRight(r, base))
      && (AskedRight(r', base) && op.Get? && OwnItem(r.txn, op.key).key == [] ==>
            View(values, r.txn, op.key) == Find(Effect(base, r.program), op.key))
  {
    var r' := Called(values, r, op);
    if op.Get? || !r.txn.readOnly {
      if AskedRight(r', base) {
        forall i | i in r.asked ensures r.results[i] == Result(Effect(base, r.program[..i]), r.program[i]) {
          assert i in r'.asked && r'.program[..i] == r.program[..i];
        }
        if op.Get? && OwnItem(r.txn, op.key).key == [] {
          assert |r.program| in r'.asked && r'.program[..|r.program|] == r.program;
        }
      }
    }
  }

  lemma CallFollows(values: Tree, r: Running, op: Op, base: Map)
    requires Sorted(values) && Bounded(r.txn) && op.key != [] && Follows(r, base)
    requires op.Get? && OwnItem(r.txn, op.key).key == [] ==>
               View(values, r.txn, op.key) == Find(Effect(base, r.program), op.key)
    ensures Bounded(Called(values, r, op).txn) && Follows(Called(values, r, op), base)
  {
    if op.Get? || !r.txn.readOnly {
      var m := Effect(base, r.program);
      EffectOfNext(base, r.program, op);
      match op
      case Get(k) => ReadFollows(values, r.txn, m, m, k);
      case Put(k, v) => WriteFollows(r.txn, m, Item(k, r.txn.snapshot + 1, v, false, false));
      case Delete(k) => DeleteFollows(values, r.txn, m, k);
    }
  }

  lemma CallKeepsBounded(values: Tree, t: Txn, op: Op)
    requires Sorted(values) && Bounded(t) && op.key != []
    ensures Bounded(AfterOp(values, t, op))
  {
    if !op.Put? {
      ReadKeepsBounded(values, t, op.key);
    }
    if !op.Get? {
      RecordKeepsBounded(if op.Put? then t else AfterRead(values, t, op.key),
                         Item(op.key, t.snapshot + 1, if op.Put? then op.val else [], op.Delete?, false));
    }
  }

  // ---------- Runs ----------

  ghost predicate AnswersRight(r: Running, base: Map) {
    && Bounded(r.txn) && |r.results| == |r.program| && (forall i :: i in r.asked ==> i < |r.program|)
    && (AskedRight(r, base) ==> Follows(r, base))
  }

  ghost predicate AnswersInv(s: System) {
    forall id :: id in s.txns ==>
      && s.txns[id].txn.snapshot < |s.store.hist|
      && AnswersRight(s.txns[id], s.store.hist[s.txns[id].txn.snapshot])
  }

  lemma CallKeepsAnswers(values: Tree, r: Running, op: Op, base: Map)
    requires Sorted(values) && AnswersRight(r, base) && op.key != []
    ensures AnswersRight(Called(values, r, op), base) && Called(values, r, op).txn.snapshot == r.txn.snapshot
  {
    AskedBefore(values, r, op, base);
    CallKeepsBounded(values, r.txn, op);
    CallKeepsShape(values, r.txn, op);
    if AskedRight(Called(values, r, op), base) {
      CallFollows(values, r, op, base);
    }
  }

  /** What a step makes of a transaction: nothing, a call, or a purge; or it begins it. */
  ghost predicate Continues(s: System, r': Running, id: nat) {
    || r' == Started(s.store, r'.txn.readOnly)
    || (id in s.txns && r'.(intact := s.txns[id].intact) == s.txns[id])
    || (id in s.txns && exists op: Op :: op.key != [] && r' == Called(s.store.values, s.txns[id], op))
  }

  lemma StepContinues(s: System, e: Event, id: nat)
    requires Sized(s) && Enabled(s, e) && id in Step(s, e).txns
    ensures Continues(s, Step(s, e).txns[id], id)
  {
    if e.Call? && e.id == id {
      assert e.op.key != [] && Step(s, e).txns[id] == Called(s.store.values, s.txns[id], e.op);
    }
  }

  lemma ContinuesKeepsAnswers(s: System, r': Running, id: nat)
    requires Inv(s) && AnswersInv(s) && Continues(s, r', id)
    ensures r'.txn.snapshot < |s.store.hist| && AnswersRight(r', s.store.hist[r'.txn.snapshot])
  {
    if r' == Started(s.store, r'.txn.readOnly) {
      assert AnswersRight(r', s.store.hist[s.store.version]);
    } else {
      var r := s.txns[id];
      if r'.(intact := r.intact) == r {
        assert AskedRight(r', s.store.hist[r.txn.snapshot]) <==> AskedRight(r, s.store.hist[r.txn.snapshot]);
      } else {
        var op: Op :| op.key != [] && r' == Called(s.store.values, r, op);
        CallKeepsAnswers(s.store.values, r, op, s.store.hist[r.txn.snapshot]);
      }
    }
  }

  lemma StepKeepsAnswers(s: System, e: Event)
    requires Inv(s) && Enabled(s, e) && AnswersInv(s)
    ensures AnswersInv(Step(s, e))
  {
    var s' := Step(s, e);
    StepGrows(s, e);
    forall id | id in s'.txns
      ensures s'.txns[id].txn.snapshot < |s'.store.hist|
      ensures AnswersRight(s'.txns[id], s'.store.hist[s'.txns[id].txn.snapshot])
    {
      StepContinues(s, e, id);
      ContinuesKeepsAnswers(s, s'.txns[id], id);
    }
  }

  lemma {:induction false} RunKeepsAnswers(ss: seq<System>, es: seq<Event>, j: nat)
    requires IsRun(ss, es) && j < |ss|
    ensures AnswersInv(ss[j])
  {
    if j > 0 {
      RunKeepsAnswers(ss, es, j - 1);
      RunKeepsInv(ss, es, j - 1);
      assert StepAt(ss, es, j - 1);
      StepKeepsAnswers(ss[j - 1], es[j - 1]);
    }
  }

  /**
   In every run, any transaction has got the answers of its program on its snapshot alone if and only if each answer
   that came from the store is right there; those from its own records then are too.
   */
  lemma SnapshotReadsExactly(ss: seq<System>, es: seq<Event>, j: nat, id: nat)
    requires IsRun(ss, es) && j < |ss| && id in ss[j].txns
    ensures
      var r, hist := ss[j].txns[id], ss[j].store.hist;
      && r.txn.snapshot < |hist|
      && (r.results == Results(hist[r.txn.snapshot], r.program) <==> AskedRight(r, hist[r.txn.snapshot]))
  {
    RunKeepsAnswers(ss, es, j);
    var r, hist := ss[j].txns[id], ss[j].store.hist;
    var base := hist[r.txn.snapshot];
    if r.results == Results(base, r.program) {
      forall i | i in r.asked ensures r.results[i] == Result(Effect(base, r.program[..i]), r.program[i]) {
        ResultAt(base, r.program, i);
      }
    }
  }
}
