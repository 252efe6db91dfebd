/** Merges that do not race are safe to overlap: every interleaving ends in the store that all the deltas stand for. */
module RaceFree {
  import opened ByteOrder
  import opened Crdt
  import opened Merging
  import opened Races

  ghost predicate IsSafe(s: Data, doc: DocId, js: seq<Job>, ds: set<Delta>) {
    forall schedule :: AllEnded(Run(s, doc, js, schedule).1) ==> Represents(Run(s, doc, js, schedule).0, ds)
  }

  // ---------- Any number of merges without a conflict ----------

  ghost predicate NoConflicts(js: seq<Job>) {
    forall i, k :: 0 <= i < |js| && 0 <= k < |js| && i != k ==> !Conflict(js[i], js[k])
  }

  ghost function DecidedOf(js: seq<Job>): set<Delta> { set i | 0 <= i < |js| && Decided(js[i]) :: js[i].delta }

  ghost function AllOf(js: seq<Job>): set<Delta> { set i | 0 <= i < |js| :: js[i].delta }

  lemma AllOfSame(js: seq<Job>, i: nat, j: Job)
    requires i < |js| && j.delta == js[i].delta
    ensures AllOf(js[i := j]) == AllOf(js)
  {
    var js' := js[i := j];
    forall d ensures d in AllOf(js') <==> d in AllOf(js) {
      if d in AllOf(js) {
        var k :| 0 <= k < |js| && js[k].delta == d;
        assert js'[k].delta == d;
      }
      if d in AllOf(js') {
        var k :| 0 <= k < |js'| && js'[k].delta == d;
        assert js[k].delta == d;
      }
    }
  }

  ghost predicate AtWork(s: Data, doc: DocId, js: seq<Job>, ds: set<Delta>, t: Data) {
    && NoConflicts(js) && AllRight(doc, js) && WellTyped(s) && Finishes(s, doc, js, t)
    && AllValid(ds) && Represents(t, ds + DecidedOf(js))
  }

  lemma DecidedGrows(s: Data, doc: DocId, js: seq<Job>, i: nat)
    requires i < |js| && RightJob(doc, js[i])
    ensures
      var j := Access(s, doc, js[i]).1;
      DecidedOf(js[i := j]) == if Decided(j) then DecidedOf(js) + {js[i].delta} else DecidedOf(js)
  {
    var j := Access(s, doc, js[i]).1;
    AccessIsRight(s, doc, js[i]);
    if Decided(js[i]) {
      StaysDecided(s, doc, js[i]);
    }
    var js' := js[i := j];
    forall d
      ensures d in DecidedOf(js') <==> d in (if Decided(j) then DecidedOf(js) + {js[i].delta} else DecidedOf(js))
    {
      if d in DecidedOf(js) {
        var k :| 0 <= k < |js| && Decided(js[k]) && js[k].delta == d;
        assert k != i ==> js'[k] == js[k];
      }
      if d in DecidedOf(js') {
        var k :| 0 <= k < |js'| && Decided(js'[k]) && js'[k].delta == d;
        assert k != i ==> js'[k] == js[k];
      }
      if Decided(j) && d == js[i].delta {
        assert js'[i] == j;
      }
    }
  }

  lemma StaysAtWork(s: Data, doc: DocId, js: seq<Job>, i: nat, ds: set<Delta>, t: Data)
    requires AtWork(s, doc, js, ds, t) && i < |js| && js[i].at != Ended
    ensures AtWork(Access(s, doc, js[i]).0, doc, js[i := Access(s, doc, js[i]).1], ds, Advanced(t, doc, s, js[i]))
  {
    StaysFinishing(s, doc, js, i, ds, t);
    DecidedGrows(s, doc, js, i);
    GoalGrows(s, doc, js, i, ds, t);
  }

  lemma StaysFinishing(s: Data, doc: DocId, js: seq<Job>, i: nat, ds: set<Delta>, t: Data)
    requires AtWork(s, doc, js, ds, t) && i < |js| && js[i].at != Ended
    ensures
      var (s', j) := Access(s, doc, js[i]);
      && NoConflicts(js[i := j]) && AllRight(doc, js[i := j]) && WellTyped(s')
      && Finishes(s', doc, js[i := j], Advanced(t, doc, s, js[i]))
  {
    RepresentsShaped(t, ds + DecidedOf(js), doc);
    StaysRight(doc, s, js, i);
    AccessKeepsFinishing(s, doc, js, i, t);
    AccessWellTyped(s, doc, js, i, t);
  }

  lemma StaysRight(doc: DocId, s: Data, js: seq<Job>, i: nat)
    requires i < |js| && js[i].at != Ended && NoConflicts(js) && AllRight(doc, js)
    ensures NoConflicts(js[i := Access(s, doc, js[i]).1]) && AllRight(doc, js[i := Access(s, doc, js[i]).1])
  {
    AccessIsRight(s, doc, js[i]);
  }

  lemma GoalGrows(s: Data, doc: DocId, js: seq<Job>, i: nat, ds: set<Delta>, t: Data)
    requires i < |js| && AllRight(doc, js) && AllValid(ds) && Represents(t, ds + DecidedOf(js))
    ensures Represents(Advanced(t, doc, s, js[i]),
                       ds + if Decided(Access(s, doc, js[i]).1) then DecidedOf(js) + {js[i].delta} else DecidedOf(js))
  {
    var d, all := js[i].delta, ds + DecidedOf(js);
    assert all + {d} == ds + (DecidedOf(js) + {d});
    if Decided(js[i]) {
      assert all + {d} == all;
    } else {
      MergeStep(t, all, d);
    }
  }

  lemma {:induction false} WithoutConflict(s: Data, doc: DocId, js: seq<Job>, schedule: seq<nat>, ds: set<Delta>,
                                           t: Data)
    requires AtWork(s, doc, js, ds, t) && AllEnded(Run(s, doc, js, schedule).1)
    ensures Represents(Run(s, doc, js, schedule).0, ds + AllOf(js))
    decreases |schedule|
  {
    if schedule == [] {
      NothingOpen(s, doc, js, t);
      assert DecidedOf(js) == AllOf(js);
    } else if schedule[0] < |js| && js[schedule[0]].at != Ended {
      var i := schedule[0];
      var (s', j) := Access(s, doc, js[i]);
      StaysAtWork(s, doc, js, i, ds, t);
      AccessIsRight(s, doc, js[i]);
      WithoutConflict(s', doc, js[i := j], schedule[1..], ds, Advanced(t, doc, s, js[i]));
      AllOfSame(js, i, j);
    } else {
      if schedule[0] < |js| {
        assert js[schedule[0] := js[schedule[0]]] == js;
      }
      WithoutConflict(s, doc, js, schedule[1..], ds, t);
    }
  }

  // ---------- A merge that will not write ----------

  /** The register will stop this write at every point: a later priority, or a tie with bytes that are not smaller. */
  ghost predicate Stopped(s: Data, s0: Data, f: FieldKey, a: Write) {
    && Decodable(s, f) && Decodable(s0, f)
    && var low, cur, tie := Current(s0, f).priority, Current(s, f).priority, a.priority == Current(s0, f).priority;
    && a.priority <= low <= cur && (cur == a.priority ==> tie)
    && (tie && a.data != [] ==> SlotOf(s, f) == SlotOf(s0, f) && !Less(Payload(s, SlotOf(s0, f)), a.data))
  }

  ghost predicate QuietRegister(s: Data, s0: Data, j: Job, f: FieldKey, a: Write) {
    && Stopped(s, s0, f, a)
    && match j.at
       case ReadPriority => true
       case ReadMarker(cur) => a.priority <= cur && (cur == a.priority ==> a.priority == Current(s0, f).priority)
       case ReadValue(slot) =>
         a.priority == Current(s0, f).priority && (a.data != [] ==> slot == SlotOf(s0, f))
       case _ => j.at == Ended
  }

  /** Nothing is left to delete. */
  ghost predicate Gone(s: Data, doc: DocId) {
    IsDeleted(s, doc) && forall g :: DataKey(doc, ValueKey, g) !in s
  }

  /** The merge writes nothing, now or later, while the store stays as it is in this respect. */
  ghost predicate Quiet(s: Data, s0: Data, doc: DocId, j: Job) {
    && RightJob(doc, j)
    && if j.delta.RegisterDelta? then QuietRegister(s, s0, j, j.delta.key, WriteOf(j.delta))
       else if Deletes(j.delta) then
         Gone(s, doc) && (j.at.PutDeleted? || j.at.ReadEmpty? || j.at.QueryValues? || j.at == Ended)
       else PrimaryKey(doc) in s && (j.at.HasMarker? || j.at == Ended)
  }

  lemma QuietAccess(s: Data, s0: Data, doc: DocId, j: Job)
    requires Quiet(s, s0, doc, j)
    ensures Access(s, doc, j).0 == s && Quiet(s, s0, doc, Access(s, doc, j).1)
  {
    AccessIsRight(s, doc, j);
    if Deletes(j.delta) {
      ValuesOfHas(s, doc);
      assert ValuesOf(s, doc) == map[];
      assert s[PrimaryKey(doc) := Blob([DELETED_OBJECT_MARKER])] == s;
    }
  }

  /** What the other merge has decided so far, in terms of the store that both started from. */
  ghost function Target(s0: Data, p: Job): Data { if Decided(p) then MergeDelta(s0, p.delta) else s0 }

  ghost predicate OneWrites(s: Data, s0: Data, doc: DocId, p: Job, q: Job) {
    && RightJob(doc, p) && WellTyped(s) && WellTyped(s0) && MarkerShape(s0, doc)
    && Finishes(s, doc, [p], Target(s0, p)) && Quiet(s, s0, doc, q)
  }

  lemma WriterSteps(s: Data, s0: Data, doc: DocId, p: Job)
    requires RightJob(doc, p) && WellTyped(s) && WellTyped(s0) && MarkerShape(s0, doc) && p.at != Ended
    requires Finishes(s, doc, [p], Target(s0, p))
    ensures
      var (s', p') := Access(s, doc, p);
      RightJob(doc, p') && WellTyped(s') && Finishes(s', doc, [p'], Target(s0, p'))
  {
    var p' := Access(s, doc, p).1;
    MergeKeepsWellTyped(s0, p.delta);
    MergeKeepsShape(s0, p.delta, doc);
    AccessIsRight(s, doc, p);
    AccessKeepsFinishing(s, doc, [p], 0, Target(s0, p));
    assert [p][0 := p'] == [p'];
    AccessWellTyped(s, doc, [p], 0, Target(s0, p));
    if Decided(p) {
      StaysDecided(s, doc, p);
    }
  }

  /** Why the second merge stays quiet beside the first. */
  ghost predicate QuietBy(s0: Data, doc: DocId, p: Delta, q: Delta) {
    && WellTyped(s0)
    && if q.RegisterDelta? then
         var cur := Current(s0, q.key);
         if p.RegisterDelta?
         then p.key == q.key && !Beats(WriteOf(q), cur) && !Stale(cur, WriteOf(q), WriteOf(p))
         else Deletes(p) && !Beats(WriteOf(q), Write(cur.priority, []))
       else if Deletes(q) then Gone(s0, doc)
       else PrimaryKey(doc) in s0
  }

  lemma BesideRegister(s: Data, s0: Data, doc: DocId, p: Job, q: Job)
    requires OneWrites(s, s0, doc, p, q) && QuietBy(s0, doc, p.delta, q.delta) && p.at != Ended
    requires p.delta.RegisterDelta? && q.delta.RegisterDelta?
    ensures Quiet(Access(s, doc, p).0, s0, doc, q)
  {
    var f, a, b, t := q.delta.key, WriteOf(q.delta), WriteOf(p.delta), Target(s0, p);
    assert Ahead(s, doc, [p], t) && Remembers(doc, [p][0], t);
    if p.at.PutValue? && Less(b.data, a.data) && a.priority == Current(s0, f).priority {
      LessTransitive(Current(s0, f).data, b.data, a.data);
    }
  }

  lemma BesideDelete(s: Data, s0: Data, doc: DocId, p: Job, q: Job)
    requires OneWrites(s, s0, doc, p, q) && QuietBy(s0, doc, p.delta, q.delta) && p.at != Ended
    requires Deletes(p.delta) && q.delta.RegisterDelta?
    ensures Quiet(Access(s, doc, p).0, s0, doc, q)
  {
  }

  lemma GoneStays(s: Data, s0: Data, doc: DocId, p: Job, q: Job)
    requires OneWrites(s, s0, doc, p, q) && Gone(s0, doc) && Deletes(q.delta) && p.at != Ended
    ensures Gone(Access(s, doc, p).0, doc)
  {
    if p.delta.RegisterDelta? {
      assert Ahead(s, doc, [p], Target(s0, p)) && Remembers(doc, [p][0], Target(s0, p));
    } else if Deletes(p.delta) {
      ValuesOfHas(s, doc);
    } else {
      assert Ahead(s, doc, [p], Target(s0, p)) && Remembers(doc, [p][0], Target(s0, p));
    }
  }

  lemma StaysQuiet(s: Data, s0: Data, doc: DocId, p: Job, q: Job)
    requires OneWrites(s, s0, doc, p, q) && QuietBy(s0, doc, p.delta, q.delta) && p.at != Ended
    ensures Quiet(Access(s, doc, p).0, s0, doc, q)
  {
    if q.delta.RegisterDelta? {
      if p.delta.RegisterDelta? {
        BesideRegister(s, s0, doc, p, q);
      } else {
        BesideDelete(s, s0, doc, p, q);
      }
    } else if Deletes(q.delta) {
      GoneStays(s, s0, doc, p, q);
    }
  }

  lemma {:induction false} BesideQuiet(s: Data, s0: Data, doc: DocId, js: seq<Job>, p: nat, q: nat, schedule: seq<nat>)
    requires |js| == 2 && {p, q} == {0, 1} && OneWrites(s, s0, doc, js[p], js[q])
    requires QuietBy(s0, doc, js[p].delta, js[q].delta) && AllEnded(Run(s, doc, js, schedule).1)
    ensures Run(s, doc, js, schedule).0 == MergeDelta(s0, js[p].delta)
    decreases |schedule|
  {
    assert p != q && (p == 0 || p == 1) && (q == 0 || q == 1) by {
      assert p in {p, q} && q in {p, q} && 0 in {p, q} && 1 in {p, q};
    }
    if schedule == [] {
      NothingOpen(s, doc, [js[p]], Target(s0, js[p]));
    } else if schedule[0] == p && js[p].at != Ended {
      var (s', j) := Access(s, doc, js[p]);
      WriterSteps(s, s0, doc, js[p]);
      StaysQuiet(s, s0, doc, js[p], js[q]);
      AccessIsRight(s, doc, js[p]);
      BesideQuiet(s', s0, doc, js[p := j], p, q, schedule[1..]);
    } else if schedule[0] == q {
      QuietAccess(s, s0, doc, js[q]);
      AccessIsRight(s, doc, js[q]);
      BesideQuiet(s, s0, doc, js[q := Access(s, doc, js[q]).1], p, q, schedule[1..]);
    } else {
      if schedule[0] == p {
        assert js[p := js[p]] == js;
      }
      BesideQuiet(s, s0, doc, js, p, q, schedule[1..]);
    }
  }

  /** A quiet merge adds nothing to what the other one leaves. */
  lemma QuietAddsNothing(s0: Data, doc: DocId, p: Delta, q: Delta)
    requires QuietBy(s0, doc, p, q) && IsOf(p, doc) && IsOf(q, doc)
    ensures MergeDelta(MergeDelta(s0, p), q) == MergeDelta(s0, p)
  {
    var t := MergeDelta(s0, p);
    if q.RegisterDelta? {
      if p.RegisterDelta? {
        if Beats(WriteOf(p), Current(s0, q.key)) && Beats(WriteOf(q), WriteOf(p)) {
          BeatsTransitive(WriteOf(q), WriteOf(p), Current(s0, q.key));
        }
      } else {
        var marked := s0[PrimaryKey(doc) := Blob([DELETED_OBJECT_MARKER])];
        RelocatedAt(marked, doc, PriorityKeyOf(q.key));
      }
    } else if Deletes(q) {
      GoneAfter(s0, doc, p);
    } else {
      RelocatedAt(s0[PrimaryKey(doc) := Blob([DELETED_OBJECT_MARKER])], doc, PrimaryKey(doc));
    }
  }

  lemma GoneAfter(s0: Data, doc: DocId, p: Delta)
    requires Gone(s0, doc) && IsOf(p, doc) && WellTyped(s0)
    ensures MergeComposite(MergeDelta(s0, p), doc, Deleted) == MergeDelta(s0, p)
  {
    var t := MergeDelta(s0, p);
    if Deletes(p) {
      assert s0[PrimaryKey(doc) := Blob([DELETED_OBJECT_MARKER])] == s0;
      NothingToRelocate(s0, doc);
    }
    assert IsDeleted(t, doc) && t[PrimaryKey(doc) := Blob([DELETED_OBJECT_MARKER])] == t;
    forall k | IsValueKey(k, doc) ensures k !in t {
      assert k == DataKey(doc, ValueKey, k.field);
    }
    NothingToRelocate(t, doc);
  }

  // ---------- One write twice ----------

  /** The store before the write, once its value is there, and once its priority is there too. */
  ghost function Written(s0: Data, f: FieldKey, w: Write, k: nat): Data {
    var put := s0[SlotOf(s0, f) := Blob([LWW_REGISTER] + w.data)];
    if k == 0 then s0 else if k == 1 then put else put[PriorityKeyOf(f) := Number(w.priority)]
  }

  ghost predicate WritePoint(s0: Data, f: FieldKey, w: Write, k: nat, at: Point)
    requires Decodable(s0, f)
  {
    match at
    case ReadPriority => true
    case ReadMarker(cur) => cur == Current(s0, f).priority || (cur == w.priority && k == 2)
    case ReadValue(slot) => slot == SlotOf(s0, f) && (Current(s0, f).priority == w.priority || k == 2)
    case PutValue(slot) => slot == SlotOf(s0, f)
    case _ => k >= 1 && (at == PutPriority || at == Ended)
  }

  lemma WritePointLater(s0: Data, f: FieldKey, w: Write, k: nat, k': nat, at: Point)
    requires Decodable(s0, f) && WritePoint(s0, f, w, k, at) && k <= k' <= 2
    ensures WritePoint(s0, f, w, k', at)
  {
  }

  /** One access of a merge of the write `w`, which beats the current one. */
  lemma WriteAccess(s0: Data, f: FieldKey, w: Write, k: nat, at: Point)
    requires Decodable(s0, f) && Beats(w, Current(s0, f)) && k <= 2 && WritePoint(s0, f, w, k, at) && at != Ended
    ensures
      var k' := if at == PutPriority then 2 else if at.PutValue? && k == 0 then 1 else k;
      var (s', at') := AccessRegister(Written(s0, f, w, k), f, w, at);
      && s' == Written(s0, f, w, k') && WritePoint(s0, f, w, k', at')
      && (at.PutValue? ==> at' == PutPriority)
  {
    LessIrreflexive(w.data);
    var s := Written(s0, f, w, k);
    assert IsDeleted(s, f.doc) == IsDeleted(s0, f.doc);
    assert k >= 1 ==> Payload(s, SlotOf(s0, f)) == w.data;
    assert Written(s0, f, w, 2)[SlotOf(s0, f) := Blob([LWW_REGISTER] + w.data)] == Written(s0, f, w, 2);
  }

  ghost predicate WritesTwice(s: Data, s0: Data, f: FieldKey, w: Write, k: nat, js: seq<Job>) {
    && |js| == 2 && k <= 2 && Decodable(s0, f) && Beats(w, Current(s0, f)) && s == Written(s0, f, w, k)
    && (forall i :: 0 <= i < 2 ==>
          js[i] == Job(f.field, RegisterDelta(f, w.priority, w.data), js[i].at) && WritePoint(s0, f, w, k, js[i].at))
    && (k == 1 ==> js[0].at == PutPriority || js[1].at == PutPriority)
  }

  lemma WritesTwiceStep(s: Data, s0: Data, f: FieldKey, w: Write, k: nat, js: seq<Job>, i: nat) returns (k': nat)
    requires WritesTwice(s, s0, f, w, k, js) && i < 2 && js[i].at != Ended && f.field != NO_FIELD
    ensures WritesTwice(Access(s, f.doc, js[i]).0, s0, f, w, k', js[i := Access(s, f.doc, js[i]).1])
  {
    var at := js[i].at;
    k' := if at == PutPriority then 2 else if at.PutValue? && k == 0 then 1 else k;
    WriteAccess(s0, f, w, k, at);
    WritePointLater(s0, f, w, k, k', js[1 - i].at);
    var j := Access(s, f.doc, js[i]).1;
    assert js[i := j][1 - i] == js[1 - i];
  }

  lemma {:induction false} WriteTwiceEnds(s: Data, s0: Data, f: FieldKey, w: Write, k: nat, js: seq<Job>,
                                          schedule: seq<nat>)
    requires WritesTwice(s, s0, f, w, k, js) && f.field != NO_FIELD && AllEnded(Run(s, f.doc, js, schedule).1)
    ensures Run(s, f.doc, js, schedule).0 == MergeRegister(s0, f, w)
    decreases |schedule|
  {
    if schedule == [] {
      assert js[0].at == Ended && js[1].at == Ended;
    } else if schedule[0] < 2 && js[schedule[0]].at != Ended {
      var i := schedule[0];
      var k' := WritesTwiceStep(s, s0, f, w, k, js, i);
      WriteTwiceEnds(Access(s, f.doc, js[i]).0, s0, f, w, k', js[i := Access(s, f.doc, js[i]).1], schedule[1..]);
    } else {
      if schedule[0] < 2 {
        assert js[schedule[0] := js[schedule[0]]] == js;
      }
      WriteTwiceEnds(s, s0, f, w, k, js, schedule[1..]);
    }
  }

  // ---------- Two deletes ----------

  function ValueAt(doc: DocId, g: string): StoreKey { DataKey(doc, ValueKey, g) }

  function TombAt(doc: DocId, g: string): StoreKey { DataKey(doc, DeletedKey, g) }

  /** The store holds under `d` what the relocated one holds there. */
  ghost predicate Buried(s: Data, doc: DocId, t: Data, g: string) {
    TombAt(doc, g) in s && TombAt(doc, g) in t && s[TombAt(doc, g)] == t[TombAt(doc, g)]
  }

  /** What a delete remembers is what the relocated store holds, even if another delete has moved it. */
  ghost predicate LeftRight(s: Data, doc: DocId, t: Data, left: map<string, Entry>, except: set<string>) {
    && ValueAt(doc, NO_FIELD) !in s && NO_FIELD !in left && NO_FIELD !in except
    && (forall g :: g in left ==> TombAt(doc, g) in t && t[TombAt(doc, g)] == left[g])
    && (forall g :: ValueAt(doc, g) in s ==> g in left || g in except)
  }

  ghost predicate DeletePoint(s: Data, doc: DocId, t: Data, at: Point) {
    match at
    case PutDeleted => true
    case ReadEmpty => true
    case MoveEmpty(e) => TombAt(doc, COMPOSITE_NAMESPACE) in t && t[TombAt(doc, COMPOSITE_NAMESPACE)] == e
    case DropEmpty => Buried(s, doc, t, COMPOSITE_NAMESPACE)
    case QueryValues => ValueAt(doc, NO_FIELD) !in s
    case MoveValue(left) => left != map[] && LeftRight(s, doc, t, left, {})
    case DropValue(g, left) => LeftRight(s, doc, t, left, {g}) && Buried(s, doc, t, g)
    case _ => at == Ended && forall g :: ValueAt(doc, g) !in s
  }

  ghost predicate OnTheMove(s: Data, doc: DocId, t: Data) {
    IsDeleted(s, doc) && Relocated(s, doc) == t && ValueAt(doc, COMPOSITE_NAMESPACE) !in s
  }

  /** Values only go away, and what is buried stays so. */
  ghost predicate Shrinks(s: Data, s': Data, doc: DocId, t: Data) {
    && (forall g :: ValueAt(doc, g) in s' ==> ValueAt(doc, g) in s)
    && (forall g :: Buried(s, doc, t, g) ==> Buried(s', doc, t, g))
  }

  lemma DeletePointStays(s: Data, s': Data, doc: DocId, t: Data, at: Point)
    requires Shrinks(s, s', doc, t) && DeletePoint(s, doc, t, at)
    ensures DeletePoint(s', doc, t, at)
  {
  }

  /** Burying what the relocated store has buried. */
  lemma Bury(s: Data, doc: DocId, t: Data, g: string)
    requires OnTheMove(s, doc, t) && TombAt(doc, g) in t
    ensures
      var s' := s[TombAt(doc, g) := t[TombAt(doc, g)]];
      OnTheMove(s', doc, t) && Shrinks(s, s', doc, t) && Buried(s', doc, t, g)
  {
    var s' := s[TombAt(doc, g) := t[TombAt(doc, g)]];
    RelocatedAt(s, doc, TombAt(doc, g));
    RelocatedSame(s', s, doc);
  }

  lemma Unlink(s: Data, doc: DocId, t: Data, g: string)
    requires OnTheMove(s, doc, t) && Buried(s, doc, t, if g == NO_FIELD then COMPOSITE_NAMESPACE else g)
    requires g != NO_FIELD ==> ValueAt(doc, NO_FIELD) !in s
    ensures
      var s' := s - {ValueAt(doc, g)};
      OnTheMove(s', doc, t) && Shrinks(s, s', doc, t)
  {
    var s' := s - {ValueAt(doc, g)};
    forall h ensures MovedFrom(s, doc, TombAt(doc, h)) in s ==> TombAt(doc, h) in t {
      RelocatedAt(s, doc, TombAt(doc, h));
    }
    RelocatedAt(s, doc, TombAt(doc, if g == NO_FIELD then COMPOSITE_NAMESPACE else g));
    RelocatedSame(s', s, doc);
  }

  lemma QueryFinds(s: Data, doc: DocId, t: Data)
    requires OnTheMove(s, doc, t) && ValueAt(doc, NO_FIELD) !in s
    ensures LeftRight(s, doc, t, ValuesOf(s, doc), {})
  {
    ValuesOfHas(s, doc);
    forall g | g in ValuesOf(s, doc) ensures TombAt(doc, g) in t && t[TombAt(doc, g)] == ValuesOf(s, doc)[g] {
      RelocatedAt(s, doc, TombAt(doc, g));
    }
  }

  lemma BuryNext(s: Data, doc: DocId, t: Data, left: map<string, Entry>)
    requires OnTheMove(s, doc, t) && DeletePoint(s, doc, t, MoveValue(left))
    ensures
      var (s', at') := AccessDelete(s, doc, MoveValue(left));
      OnTheMove(s', doc, t) && Shrinks(s, s', doc, t) && DeletePoint(s', doc, t, at')
  {
    var (s', at') := AccessDelete(s, doc, MoveValue(left));
    var g := at'.field;
    assert g in left && s' == s[TombAt(doc, g) := t[TombAt(doc, g)]];
    Bury(s, doc, t, g);
  }

  /** One access of a delete beside another one. */
  lemma DeleteAccessBeside(s: Data, doc: DocId, t: Data, at: Point)
    requires OnTheMove(s, doc, t) && DeletePoint(s, doc, t, at) && at != Ended
    ensures
      var (s', at') := AccessDelete(s, doc, at);
      OnTheMove(s', doc, t) && Shrinks(s, s', doc, t) && DeletePoint(s', doc, t, at')
  {
    var (s', at') := AccessDelete(s, doc, at);
    match at
    case PutDeleted => assert s' == s;
    case ReadEmpty => RelocatedAt(s, doc, TombAt(doc, COMPOSITE_NAMESPACE));
    case MoveEmpty(_) => Bury(s, doc, t, COMPOSITE_NAMESPACE);
    case DropEmpty => Unlink(s, doc, t, NO_FIELD);
    case QueryValues => QueryFinds(s, doc, t);
    case MoveValue(left) => BuryNext(s, doc, t, left);
    case DropValue(g, _) => Unlink(s, doc, t, g);
  }

  ghost predicate BothDelete(doc: DocId, js: seq<Job>) {
    |js| == 2 && forall i :: 0 <= i < 2 ==> js[i].field == NO_FIELD && Deletes(js[i].delta)
  }

  ghost predicate BothMove(s: Data, doc: DocId, t: Data, js: seq<Job>) {
    BothDelete(doc, js) && OnTheMove(s, doc, t) && forall i :: 0 <= i < 2 ==> DeletePoint(s, doc, t, js[i].at)
  }

  lemma BothMoveStep(s: Data, doc: DocId, t: Data, js: seq<Job>, i: nat)
    requires BothMove(s, doc, t, js) && i < 2 && js[i].at != Ended
    ensures BothMove(Access(s, doc, js[i]).0, doc, t, js[i := Access(s, doc, js[i]).1])
  {
    var s', j := Access(s, doc, js[i]).0, Access(s, doc, js[i]).1;
    DeleteAccessBeside(s, doc, t, js[i].at);
    DeletePointStays(s, s', doc, t, js[1 - i].at);
    var js' := js[i := j];
    forall m | 0 <= m < 2 ensures DeletePoint(s', doc, t, js'[m].at) {
      assert m == i || m == 1 - i;
    }
  }

  lemma {:induction false} BothMoveEnd(s: Data, doc: DocId, t: Data, js: seq<Job>, schedule: seq<nat>)
    requires BothMove(s, doc, t, js) && AllEnded(Run(s, doc, js, schedule).1)
    ensures Run(s, doc, js, schedule).0 == t
    decreases |schedule|
  {
    if schedule == [] {
      assert js[0].at == Ended;
      forall k | IsValueKey(k, doc) ensures k !in s { assert k == ValueAt(doc, k.field); }
      NothingToRelocate(s, doc);
    } else if schedule[0] < 2 && js[schedule[0]].at != Ended {
      var i := schedule[0];
      BothMoveStep(s, doc, t, js, i);
      BothMoveEnd(Access(s, doc, js[i]).0, doc, t, js[i := Access(s, doc, js[i]).1], schedule[1..]);
    } else {
      if schedule[0] < 2 {
        assert js[schedule[0] := js[schedule[0]]] == js;
      }
      BothMoveEnd(s, doc, t, js, schedule[1..]);
    }
  }

  lemma MarkedIsOnTheMove(s: Data, doc: DocId)
    requires ValueAt(doc, COMPOSITE_NAMESPACE) !in s
    ensures OnTheMove(s[PrimaryKey(doc) := Blob([DELETED_OBJECT_MARKER])], doc, MergeComposite(s, doc, Deleted))
  {
  }

  /** The first access of either delete marks the document, and then both are on the move. */
  lemma DeleteStarts(s: Data, doc: DocId, js: seq<Job>, i: nat)
    requires BothDelete(doc, js) && ValueAt(doc, COMPOSITE_NAMESPACE) !in s && i < 2
    requires js[0].at == PutDeleted == js[1].at
    ensures BothMove(Access(s, doc, js[i]).0, doc, MergeComposite(s, doc, Deleted), js[i := Access(s, doc, js[i]).1])
  {
    var t, s', j := MergeComposite(s, doc, Deleted), Access(s, doc, js[i]).0, Access(s, doc, js[i]).1;
    MarkedIsOnTheMove(s, doc);
    assert s' == s[PrimaryKey(doc) := Blob([DELETED_OBJECT_MARKER])] && j.at == ReadEmpty;
    var js' := js[i := j];
    forall m | 0 <= m < 2 ensures DeletePoint(s', doc, t, js'[m].at) {
      assert m == i || m == 1 - i;
    }
  }

  lemma {:induction false} DeleteTwiceEnds(s: Data, doc: DocId, js: seq<Job>, schedule: seq<nat>)
    requires BothDelete(doc, js) && ValueAt(doc, COMPOSITE_NAMESPACE) !in s
    requires js[0].at == PutDeleted == js[1].at && AllEnded(Run(s, doc, js, schedule).1)
    ensures Run(s, doc, js, schedule).0 == MergeComposite(s, doc, Deleted)
    decreases |schedule|
  {
    assert js[0].at != Ended;
    if schedule != [] && schedule[0] < 2 {
      var i := schedule[0];
      DeleteStarts(s, doc, js, i);
      BothMoveEnd(Access(s, doc, js[i]).0, doc, MergeComposite(s, doc, Deleted), js[i := Access(s, doc, js[i]).1],
                  schedule[1..]);
    } else if schedule != [] {
      DeleteTwiceEnds(s, doc, js, schedule[1..]);
    }
  }

  // ---------- The main result ----------

  /** Both deltas merged, one after the other, give what all the deltas stand for. */
  lemma BothMerged(s: Data, ds: set<Delta>, a: Delta, b: Delta)
    requires Represents(s, ds) && AllValid(ds) && a.Valid() && b.Valid()
    ensures Represents(MergeDelta(MergeDelta(s, a), b), ds + {a, b})
  {
    MergeStep(s, ds, a);
    MergeStep(MergeDelta(s, a), ds + {a}, b);
    assert ds + {a} + {b} == ds + {a, b};
  }

  lemma QuietIsSafe(s: Data, doc: DocId, ds: set<Delta>, p: Delta, q: Delta, js: seq<Job>, i: nat, k: nat)
    requires Represents(s, ds) && AllValid(ds) && IsOf(p, doc) && IsOf(q, doc) && QuietBy(s, doc, p, q)
    requires |js| == 2 && {i, k} == {0, 1} && js[i] == JobFor(p) && js[k] == JobFor(q)
    ensures IsSafe(s, doc, js, ds + {p, q})
  {
    RepresentsShaped(s, ds, doc);
    assert Ahead(s, doc, [JobFor(p)], s);
    assert OneWrites(s, s, doc, JobFor(p), JobFor(q));
    forall schedule | AllEnded(Run(s, doc, js, schedule).1)
      ensures Represents(Run(s, doc, js, schedule).0, ds + {p, q})
    {
      BesideQuiet(s, s, doc, js, i, k, schedule);
      QuietAddsNothing(s, doc, p, q);
      BothMerged(s, ds, p, q);
    }
  }

  lemma ConflictFreeIsSafe(s: Data, doc: DocId, ds: set<Delta>, a: Delta, b: Delta)
    requires Represents(s, ds) && AllValid(ds) && IsOf(a, doc) && IsOf(b, doc) && !Conflict(JobFor(a), JobFor(b))
    ensures IsSafe(s, doc, [JobFor(a), JobFor(b)], ds + {a, b})
  {
    var js := [JobFor(a), JobFor(b)];
    RepresentsShaped(s, ds, doc);
    assert Ahead(s, doc, js, s);
    assert DecidedOf(js) == {} && ds + {} == ds;
    assert AllOf(js) == {a, b} by { assert js[0].delta == a && js[1].delta == b; }
    forall schedule | AllEnded(Run(s, doc, js, schedule).1)
      ensures Represents(Run(s, doc, js, schedule).0, ds + {a, b})
    {
      WithoutConflict(s, doc, js, schedule, ds, s);
    }
  }

  lemma SameWriteIsSafe(s: Data, doc: DocId, ds: set<Delta>, a: Delta)
    requires Represents(s, ds) && AllValid(ds) && IsOf(a, doc) && a.RegisterDelta?
    requires Decodable(s, a.key) && Beats(WriteOf(a), Current(s, a.key))
    ensures IsSafe(s, doc, [JobFor(a), JobFor(a)], ds + {a, a})
  {
    var js := [JobFor(a), JobFor(a)];
    MergeStep(s, ds, a);
    assert ds + {a} == ds + {a, a};
    forall schedule | AllEnded(Run(s, doc, js, schedule).1)
      ensures Represents(Run(s, doc, js, schedule).0, ds + {a, a})
    {
      WriteTwiceEnds(s, s, a.key, WriteOf(a), 0, js, schedule);
    }
  }

  /** What a store that stands for valid deltas holds of a document under `v`. */
  lemma ValuesOfRepresented(s: Data, doc: DocId, ds: set<Delta>)
    requires Represents(s, ds) && AllValid(ds)
    ensures ValueAt(doc, COMPOSITE_NAMESPACE) !in s && (IsDeleted(s, doc) ==> Gone(s, doc))
  {
    assert RegisterRight(s, ds, FieldKey(doc, COMPOSITE_NAMESPACE));
    if IsDeleted(s, doc) {
      forall g ensures DataKey(doc, ValueKey, g) !in s { assert RegisterRight(s, ds, FieldKey(doc, g)); }
    }
  }

  lemma DeletesAreSafe(s: Data, doc: DocId, ds: set<Delta>, a: Delta, b: Delta)
    requires Represents(s, ds) && AllValid(ds) && IsOf(a, doc) && IsOf(b, doc) && Deletes(a) && Deletes(b)
    ensures IsSafe(s, doc, [JobFor(a), JobFor(b)], ds + {a, b})
  {
    var js, t := [JobFor(a), JobFor(b)], MergeComposite(s, doc, Deleted);
    ValuesOfRepresented(s, doc, ds);
    BothMerged(s, ds, a, b);
    AfterDeleteGone(s, doc);
    forall schedule | AllEnded(Run(s, doc, js, schedule).1)
      ensures Represents(Run(s, doc, js, schedule).0, ds + {a, b})
    {
      DeleteTwiceEnds(s, doc, js, schedule);
    }
  }

  /** Deleting once more changes nothing. */
  lemma AfterDeleteGone(s: Data, doc: DocId)
    ensures MergeComposite(MergeComposite(s, doc, Deleted), doc, Deleted) == MergeComposite(s, doc, Deleted)
  {
    var t := MergeComposite(s, doc, Deleted);
    AfterDelete(s, doc, NO_FIELD);
    forall k | IsValueKey(k, doc) ensures k !in t {
      AfterDelete(s, doc, k.field);
      assert k == ValueAt(doc, k.field);
    }
    assert t[PrimaryKey(doc) := Blob([DELETED_OBJECT_MARKER])] == t;
    NothingToRelocate(t, doc);
  }

  lemma BesideDeleteIsSafe(s: Data, doc: DocId, ds: set<Delta>, a: Delta, b: Delta, js: seq<Job>, i: nat, k: nat)
    requires Represents(s, ds) && AllValid(ds) && IsOf(a, doc) && IsOf(b, doc) && Deletes(b) && !Deletes(a)
    requires (a.RegisterDelta? ==> Decodable(s, a.key)) && !RacesDelete(s, doc, a)
    requires |js| == 2 && {i, k} == {0, 1} && js[i] == JobFor(a) && js[k] == JobFor(b)
    ensures IsSafe(s, doc, js, ds + {a, b})
  {
    RepresentsShaped(s, ds, doc);
    ValuesOfRepresented(s, doc, ds);
    if Gone(s, doc) {
      QuietIsSafe(s, doc, ds, a, b, js, i, k);
    } else {
      assert {k, i} == {0, 1} && ds + {b, a} == ds + {a, b};
      QuietIsSafe(s, doc, ds, b, a, js, k, i);
    }
  }

  lemma WritesAreSafe(s: Data, doc: DocId, ds: set<Delta>, a: Delta, b: Delta)
    requires Represents(s, ds) && AllValid(ds) && IsOf(a, doc) && IsOf(b, doc) && a.RegisterDelta? && b.RegisterDelta?
    requires a.key == b.key && Decodable(s, a.key) && !WritesRace(Current(s, a.key), WriteOf(a), WriteOf(b))
    ensures IsSafe(s, doc, [JobFor(a), JobFor(b)], ds + {a, b})
  {
    var js, cur := [JobFor(a), JobFor(b)], Current(s, a.key);
    RepresentsShaped(s, ds, doc);
    if !Beats(WriteOf(a), cur) {
      assert {1, 0} == {0, 1} && ds + {b, a} == ds + {a, b};
      QuietIsSafe(s, doc, ds, b, a, js, 1, 0);
    } else if !Beats(WriteOf(b), cur) {
      QuietIsSafe(s, doc, ds, a, b, js, 0, 1);
    } else {
      SameWriteIsSafe(s, doc, ds, a);
    }
  }

  /**
   Two merges that start together in a store that stands for some deltas leave, in every interleaving of their
   accesses, the store that all the deltas stand for, if and only if they do not race.
   */
  lemma OverlapIsSafeExactly(s: Data, doc: DocId, ds: set<Delta>, a: Delta, b: Delta)
    requires Represents(s, ds) && AllValid(ds) && IsOf(a, doc) && IsOf(b, doc)
    ensures WellTyped(s)
    ensures IsSafe(s, doc, [JobFor(a), JobFor(b)], ds + {a, b}) <==> !Race(s, doc, a, b)
  {
    RepresentsShaped(s, ds, doc);
    if Race(s, doc, a, b) {
      RaceGoesWrong(s, doc, ds, a, b);
    } else {
      NoRaceIsSafe(s, doc, ds, a, b);
    }
  }

  lemma NoRaceIsSafe(s: Data, doc: DocId, ds: set<Delta>, a: Delta, b: Delta)
    requires Represents(s, ds) && AllValid(ds) && IsOf(a, doc) && IsOf(b, doc) && WellTyped(s) && !Race(s, doc, a, b)
    ensures IsSafe(s, doc, [JobFor(a), JobFor(b)], ds + {a, b})
  {
    var js := [JobFor(a), JobFor(b)];
    if !Conflict(JobFor(a), JobFor(b)) {
      ConflictFreeIsSafe(s, doc, ds, a, b);
    } else if Deletes(a) && Deletes(b) {
      DeletesAreSafe(s, doc, ds, a, b);
    } else if Deletes(b) {
      BesideDeleteIsSafe(s, doc, ds, a, b, js, 0, 1);
    } else if Deletes(a) {
      assert {1, 0} == {0, 1} && ds + {b, a} == ds + {a, b};
      BesideDeleteIsSafe(s, doc, ds, b, a, js, 1, 0);
    } else {
      WritesAreSafe(s, doc, ds, a, b);
    }
  }
}
