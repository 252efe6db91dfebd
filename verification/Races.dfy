/**
 Which merges of a document may overlap. Two merges that start together in a store that stands for some deltas end, in
 every interleaving of their accesses, in the store that all the deltas stand for, if and only if they do not race.
 */
module Races {
  import opened ByteOrder
  import opened Crdt
  import opened Merging
  import opened MergeEnds

  // ---------- Interleavings ----------

  /** The jobs make their accesses in the order of the schedule; a job that has ended makes none. */
  ghost function Run(s: Data, doc: DocId, js: seq<Job>, schedule: seq<nat>): (Data, seq<Job>)
    decreases |schedule|
  {
    if schedule == [] then (s, js)
    else if schedule[0] < |js| then
      var (s', j) := Access(s, doc, js[schedule[0]]);
      Run(s', doc, js[schedule[0] := j], schedule[1..])
    else Run(s, doc, js, schedule[1..])
  }

  lemma {:induction false} RunConcat(s: Data, doc: DocId, js: seq<Job>, a: seq<nat>, b: seq<nat>)
    ensures Run(s, doc, js, a + b) == Run(Run(s, doc, js, a).0, doc, Run(s, doc, js, a).1, b)
    decreases |a|
  {
    if a == [] {
      assert a + b == b;
    } else {
      assert (a + b)[1..] == a[1..] + b;
      if a[0] < |js| {
        var (s', j) := Access(s, doc, js[a[0]]);
        RunConcat(s', doc, js[a[0] := j], a[1..], b);
      } else {
        RunConcat(s, doc, js, a[1..], b);
      }
    }
  }

  function JobFor(d: Delta): Job {
    var field := if d.RegisterDelta? then d.key.field else NO_FIELD;
    Job(field, d, First(field, d))
  }

  ghost predicate AllEnded(js: seq<Job>) { forall i :: 0 <= i < |js| ==> js[i].at == Ended }

  predicate IsOf(d: Delta, doc: DocId) { d.Valid() && if d.RegisterDelta? then d.key.doc == doc else d.doc == doc }

  // ---------- Races ----------

  /** One write is a tie with the current one, and the other overtakes it with smaller bytes. */
  predicate Stale(cur: Write, a: Write, b: Write) {
    a.priority == cur.priority < b.priority && Less(b.data, a.data)
  }

  predicate WritesRace(cur: Write, a: Write, b: Write) {
    a != b && ((Beats(a, cur) && Beats(b, cur)) || Stale(cur, a, b) || Stale(cur, b, a))
  }

  function WriteOf(d: Delta): Write
    requires d.RegisterDelta?
  {
    Write(d.priority, d.data)
  }

  /** A delete races with whatever would write to a document that is not deleted yet. */
  predicate RacesDelete(s: Data, doc: DocId, d: Delta)
    requires d.RegisterDelta? ==> Decodable(s, d.key)
  {
    match d
    case RegisterDelta(f, _, _) => !IsDeleted(s, doc) && Beats(WriteOf(d), Write(Current(s, f).priority, []))
    case CompositeDelta(_, _, status) => status == Active && PrimaryKey(doc) !in s
  }

  predicate Deletes(d: Delta) { d.CompositeDelta? && d.status == Deleted }

  predicate Race(s: Data, doc: DocId, a: Delta, b: Delta)
    requires (a.RegisterDelta? ==> Decodable(s, a.key)) && (b.RegisterDelta? ==> Decodable(s, b.key))
  {
    || (a.RegisterDelta? && b.RegisterDelta? && a.key == b.key && WritesRace(Current(s, a.key), WriteOf(a), WriteOf(b)))
    || (Deletes(b) && RacesDelete(s, doc, a))
    || (Deletes(a) && RacesDelete(s, doc, b))
  }

  // ---------- A merge on its own ----------

  ghost function Alone(s: Data, doc: DocId, j: Job, n: nat): (Data, Job)
    decreases n
  {
    if n == 0 then (s, j) else Alone(Access(s, doc, j).0, doc, Access(s, doc, j).1, n - 1)
  }

  /** A merge that is on its way to `t`, and has no more values to move than the fields allow. */
  ghost predicate OnItsWay(s: Data, doc: DocId, j: Job, t: Data, fields: set<string>) {
    && RightJob(doc, j) && WellTyped(s) && WellTyped(t) && MarkerShape(t, doc) && Finishes(s, doc, [j], t)
    && ValuesWithin(s, doc, fields) && PointWithin(doc, j, fields) && (j.delta.RegisterDelta? ==> j.field in fields)
  }

  lemma MergeKeepsShape(t: Data, d: Delta, doc: DocId)
    requires MarkerShape(t, doc) && IsOf(d, doc)
    ensures MarkerShape(MergeDelta(t, d), doc)
  {
    if d.CompositeDelta? {
      RelocatedAt(t[PrimaryKey(doc) := Blob([DELETED_OBJECT_MARKER])], doc, PrimaryKey(doc));
    }
  }

  lemma StaysOnItsWay(s: Data, doc: DocId, j: Job, t: Data, fields: set<string>)
    requires OnItsWay(s, doc, j, t, fields) && j.at != Ended
    ensures OnItsWay(Access(s, doc, j).0, doc, Access(s, doc, j).1, Advanced(t, doc, s, j), fields)
  {
    var j' := Access(s, doc, j).1;
    AccessIsRight(s, doc, j);
    AccessKeepsFinishing(s, doc, [j], 0, t);
    assert [j][0 := j'] == [j'];
    AccessWellTyped(s, doc, [j], 0, t);
    AccessWithin(s, doc, j, fields);
    MergeKeepsWellTyped(t, j.delta);
    MergeKeepsShape(t, j.delta, doc);
  }

  /** Without interruption the accesses of a merge end, and do what the merge does. */
  lemma {:induction false} AloneEnds(s: Data, doc: DocId, j: Job, t: Data, fields: set<string>) returns (n: nat)
    requires OnItsWay(s, doc, j, t, fields)
    ensures Alone(s, doc, j, n).1 == j.(at := Ended)
    ensures Alone(s, doc, j, n).0 == if Decided(j) then t else MergeDelta(t, j.delta)
    decreases Rank(j.at, |fields|)
  {
    n := 0;
    if j.at == Ended {
      NothingOpen(s, doc, [j], t);
    } else {
      StaysOnItsWay(s, doc, j, t, fields);
      AccessLowersRank(s, doc, j, fields);
      AccessIsRight(s, doc, j);
      var s', j' := Access(s, doc, j).0, Access(s, doc, j).1;
      n := AloneEnds(s', doc, j', Advanced(t, doc, s, j), fields);
      if Decided(j) {
        StaysDecided(s, doc, j);
      }
      n := n + 1;
    }
  }

  ghost function FieldsWith(s: Data, doc: DocId, d: Delta): set<string> { ValuesOf(s, doc).Keys + {JobFor(d).field} }

  lemma StartsOnItsWay(s: Data, doc: DocId, d: Delta)
    requires WellTyped(s) && MarkerShape(s, doc) && IsOf(d, doc)
    ensures OnItsWay(s, doc, JobFor(d), s, FieldsWith(s, doc, d)) && !Decided(JobFor(d))
  {
    ValuesOfHas(s, doc);
    assert Ahead(s, doc, [JobFor(d)], s);
  }

  lemma AloneIsAtomic(s: Data, doc: DocId, d: Delta) returns (n: nat)
    requires WellTyped(s) && MarkerShape(s, doc) && IsOf(d, doc)
    ensures Alone(s, doc, JobFor(d), n) == (MergeDelta(s, d), JobFor(d).(at := Ended))
  {
    StartsOnItsWay(s, doc, d);
    n := AloneEnds(s, doc, JobFor(d), s, FieldsWith(s, doc, d));
  }

  lemma RepresentsShaped(s: Data, ds: set<Delta>, doc: DocId)
    requires Represents(s, ds)
    ensures WellTyped(s) && MarkerShape(s, doc)
  {
    assert MarkerRight(s, ds, doc);
    forall f ensures Decodable(s, f) { assert RegisterRight(s, ds, f); }
  }

  // ---------- Races lose writes ----------

  function Times(i: nat, n: nat): seq<nat> { if n == 0 then [] else [i] + Times(i, n - 1) }

  lemma {:induction false} RunAlone(s: Data, doc: DocId, js: seq<Job>, i: nat, n: nat)
    requires i < |js|
    ensures Run(s, doc, js, Times(i, n)) == (Alone(s, doc, js[i], n).0, js[i := Alone(s, doc, js[i], n).1])
    decreases n
  {
    if n == 0 {
      assert js[i := js[i]] == js;
    } else {
      var (s', j) := Access(s, doc, js[i]);
      RunAlone(s', doc, js[i := j], i, n - 1);
      assert Times(i, n)[1..] == Times(i, n - 1);
      var k := Alone(s', doc, j, n - 1).1;
      assert js[i := j][i := k] == js[i := k];
    }
  }

  ghost predicate CanGoWrong(s: Data, doc: DocId, js: seq<Job>, ds: set<Delta>) {
    exists schedule :: AllEnded(Run(s, doc, js, schedule).1) && !Represents(Run(s, doc, js, schedule).0, ds)
  }

  /** One job starts, the other one runs to its end, and then the first one goes on. */
  lemma Interrupted(s: Data, doc: DocId, js: seq<Job>, p: nat, q: nat, k: nat, n: nat, m: nat, ds: set<Delta>)
    requires |js| == 2 && {p, q} == {0, 1}
    requires
      var (s1, a) := Alone(s, doc, js[p], k);
      var (s2, b) := Alone(s1, doc, js[q], n);
      var (s3, c) := Alone(s2, doc, a, m);
      b.at == Ended && c.at == Ended && !Represents(s3, ds)
    ensures CanGoWrong(s, doc, js, ds)
  {
    var (s1, a) := Alone(s, doc, js[p], k);
    var (s2, b) := Alone(s1, doc, js[q], n);
    var (s3, c) := Alone(s2, doc, a, m);
    var js1 := js[p := a];
    var js2 := js1[q := b];
    RunAlone(s, doc, js, p, k);
    RunAlone(s1, doc, js1, q, n);
    RunAlone(s2, doc, js2, p, m);
    RunConcat(s, doc, js, Times(p, k), Times(q, n));
    RunConcat(s, doc, js, Times(p, k) + Times(q, n), Times(p, m));
    var schedule := Times(p, k) + Times(q, n) + Times(p, m);
    assert Run(s, doc, js, schedule) == (s3, js2[p := c]);
    assert AllEnded(js2[p := c]);
  }

  /** A register merge up to its decision: it is about to read the value of a tie, or to put its own. */
  lemma Reads(s: Data, doc: DocId, a: Delta, k: nat)
    requires IsOf(a, doc) && a.RegisterDelta? && Decodable(s, a.key)
    requires
      var cur := Current(s, a.key);
      if k == 2 then cur.priority <= a.priority else k == 3 && cur.priority == a.priority && Less(cur.data, a.data)
    ensures
      var tie := k == 2 && a.priority == Current(s, a.key).priority;
      Alone(s, doc, JobFor(a), k)
      == (s, JobFor(a).(at := if tie then ReadValue(SlotOf(s, a.key)) else PutValue(SlotOf(s, a.key))))
  {
    var j := JobFor(a);
    var j1 := Access(s, doc, j).1;
    var j2 := Access(s, doc, j1).1;
    assert Alone(s, doc, j2, 0) == (s, j2) && Alone(s, doc, j1, 1) == (s, j2);
    if k == 3 {
      assert Alone(s, doc, j2, 1) == Alone(s, doc, Access(s, doc, j2).1, 0);
      assert Alone(s, doc, j1, 2) == Alone(s, doc, j2, 1);
    }
  }

  /** From there it puts its write over whatever is there, unless a value that is not smaller stops it. */
  lemma Puts(s: Data, doc: DocId, a: Delta, slot: StoreKey, tie: bool)
    requires IsOf(a, doc) && a.RegisterDelta? && (tie ==> Less(Payload(s, slot), a.data))
    ensures
      Alone(s, doc, JobFor(a).(at := if tie then ReadValue(slot) else PutValue(slot)), if tie then 3 else 2)
      == (s[slot := Blob([LWW_REGISTER] + a.data)][PriorityKeyOf(a.key) := Number(a.priority)],
          JobFor(a).(at := Ended))
  {
    var j := JobFor(a).(at := PutValue(slot));
    var (s1, j1) := Access(s, doc, j);
    var (s2, j2) := Access(s1, doc, j1);
    assert Alone(s2, doc, j2, 0) == (s2, j2) && Alone(s1, doc, j1, 1) == (s2, j2);
    assert Alone(s, doc, j, 2) == (s2, j2);
    if tie {
      var i := JobFor(a).(at := ReadValue(slot));
      assert Access(s, doc, i) == (s, j);
      assert Alone(s, doc, i, 3) == Alone(s, doc, j, 2);
    }
  }

  lemma LoserIsWrong(s: Data, ds: set<Delta>, a: Delta, b: Delta, slot: StoreKey)
    requires a.RegisterDelta? && b.RegisterDelta? && a.key == b.key && b in ds && Beats(WriteOf(b), WriteOf(a))
    requires slot == SlotOf(s, a.key)
    ensures !Represents(s[slot := Blob([LWW_REGISTER] + a.data)][PriorityKeyOf(a.key) := Number(a.priority)], ds)
  {
    var s' := s[slot := Blob([LWW_REGISTER] + a.data)][PriorityKeyOf(a.key) := Number(a.priority)];
    assert Current(s', a.key) == WriteOf(a);
    assert !RegisterRight(s', ds, a.key);
  }

  lemma WritesGoWrong(s: Data, doc: DocId, ds: set<Delta>, a: Delta, b: Delta, js: seq<Job>, p: nat, q: nat)
    requires Represents(s, ds) && IsOf(a, doc) && IsOf(b, doc) && a.RegisterDelta? && b.RegisterDelta? && a.key == b.key
    requires Decodable(s, a.key) && |js| == 2 && {p, q} == {0, 1} && js[p] == JobFor(a) && js[q] == JobFor(b)
    requires
      var cur := Current(s, a.key);
      || Stale(cur, WriteOf(a), WriteOf(b))
      || (Beats(WriteOf(a), cur) && Beats(WriteOf(b), cur) && Beats(WriteOf(b), WriteOf(a)))
    ensures CanGoWrong(s, doc, js, ds + {a, b})
  {
    var cur, slot := Current(s, a.key), SlotOf(s, a.key);
    RepresentsShaped(s, ds, doc);
    var n := AloneIsAtomic(s, doc, b);
    var s2 := MergeDelta(s, b);
    assert SlotOf(s2, a.key) == slot && Payload(s2, slot) == b.data;
    var k := if a.priority == cur.priority && !Stale(cur, WriteOf(a), WriteOf(b)) then 3 else 2;
    var tie := k == 2 && a.priority == cur.priority;
    Reads(s, doc, a, k);
    Puts(s2, doc, a, slot, tie);
    LoserIsWrong(s2, ds + {a, b}, a, b, slot);
    Interrupted(s, doc, js, p, q, k, n, if tie then 3 else 2, ds + {a, b});
  }

  /** Deleting leaves no value under `v`, and marks the document. */
  lemma AfterDelete(s: Data, doc: DocId, field: string)
    ensures
      var t := MergeComposite(s, doc, Deleted);
      IsDeleted(t, doc) && DataKey(doc, ValueKey, field) !in t
  {
    var marked := s[PrimaryKey(doc) := Blob([DELETED_OBJECT_MARKER])];
    RelocatedAt(marked, doc, PrimaryKey(doc));
    RelocatedAt(marked, doc, DataKey(doc, ValueKey, field));
  }

  lemma WriteBesideDelete(s: Data, doc: DocId, ds: set<Delta>, a: Delta, b: Delta, js: seq<Job>, p: nat, q: nat)
    requires Represents(s, ds) && IsOf(a, doc) && IsOf(b, doc) && a.RegisterDelta? && Deletes(b)
    requires Decodable(s, a.key) && |js| == 2 && {p, q} == {0, 1} && js[p] == JobFor(a) && js[q] == JobFor(b)
    requires RacesDelete(s, doc, a)
    ensures CanGoWrong(s, doc, js, ds + {a, b})
  {
    var slot := DataKey(doc, ValueKey, a.key.field);
    RepresentsShaped(s, ds, doc);
    var n := AloneIsAtomic(s, doc, b);
    var s2 := MergeDelta(s, b);
    AfterDelete(s, doc, a.key.field);
    var tie := a.priority == Current(s, a.key).priority;
    Reads(s, doc, a, 2);
    Puts(s2, doc, a, slot, tie);
    var s3 := s2[slot := Blob([LWW_REGISTER] + a.data)][PriorityKeyOf(a.key) := Number(a.priority)];
    assert IsDeleted(s3, doc) && slot in s3;
    assert !RegisterRight(s3, ds + {a, b}, a.key);
    Interrupted(s, doc, js, p, q, 2, n, if tie then 3 else 2, ds + {a, b});
  }

  lemma CreateBesideDelete(s: Data, doc: DocId, ds: set<Delta>, a: Delta, b: Delta, js: seq<Job>, p: nat, q: nat)
    requires Represents(s, ds) && IsOf(a, doc) && IsOf(b, doc) && a.CompositeDelta? && a.status == Active && Deletes(b)
    requires |js| == 2 && {p, q} == {0, 1} && js[p] == JobFor(a) && js[q] == JobFor(b) && PrimaryKey(doc) !in s
    ensures CanGoWrong(s, doc, js, ds + {a, b})
  {
    var j := JobFor(a);
    var ready := j.(at := PutMarker);
    RepresentsShaped(s, ds, doc);
    var n := AloneIsAtomic(s, doc, b);
    var s2 := MergeDelta(s, b);
    var s3 := s2[PrimaryKey(doc) := Blob([OBJECT_MARKER])];
    assert Alone(s, doc, ready, 0) == (s, ready) && Alone(s, doc, j, 1) == (s, ready);
    assert Alone(s3, doc, j.(at := Ended), 0) == (s3, j.(at := Ended));
    assert Alone(s2, doc, ready, 1) == (s3, j.(at := Ended));
    assert b in ds + {a, b} && HasDelete(ds + {a, b}, doc);
    assert !MarkerRight(s3, ds + {a, b}, doc);
    Interrupted(s, doc, js, p, q, 1, n, 1, ds + {a, b});
  }

  /** Two merges that race can end in a wrong store. */
  lemma RaceGoesWrong(s: Data, doc: DocId, ds: set<Delta>, a: Delta, b: Delta)
    requires Represents(s, ds) && IsOf(a, doc) && IsOf(b, doc)
    requires (a.RegisterDelta? ==> Decodable(s, a.key)) && (b.RegisterDelta? ==> Decodable(s, b.key))
    requires Race(s, doc, a, b)
    ensures CanGoWrong(s, doc, [JobFor(a), JobFor(b)], ds + {a, b})
  {
    var js := [JobFor(a), JobFor(b)];
    assert {1, 0} == {0, 1} && ds + {b, a} == ds + {a, b};
    if Deletes(b) && RacesDelete(s, doc, a) {
      OneDeletes(s, doc, ds, a, b, js, 0, 1);
    } else if Deletes(a) && RacesDelete(s, doc, b) {
      OneDeletes(s, doc, ds, b, a, js, 1, 0);
    } else {
      var cur := Current(s, a.key);
      BeatsTotal(WriteOf(a), WriteOf(b));
      if Stale(cur, WriteOf(a), WriteOf(b)) || (!Stale(cur, WriteOf(b), WriteOf(a)) && Beats(WriteOf(b), WriteOf(a))) {
        WritesGoWrong(s, doc, ds, a, b, js, 0, 1);
      } else {
        WritesGoWrong(s, doc, ds, b, a, js, 1, 0);
      }
    }
  }

  lemma OneDeletes(s: Data, doc: DocId, ds: set<Delta>, a: Delta, b: Delta, js: seq<Job>, p: nat, q: nat)
    requires Represents(s, ds) && IsOf(a, doc) && IsOf(b, doc) && Deletes(b)
    requires (a.RegisterDelta? ==> Decodable(s, a.key)) && RacesDelete(s, doc, a)
    requires |js| == 2 && {p, q} == {0, 1} && js[p] == JobFor(a) && js[q] == JobFor(b)
    ensures CanGoWrong(s, doc, js, ds + {a, b})
  {
    if a.RegisterDelta? {
      WriteBesideDelete(s, doc, ds, a, b, js, p, q);
    } else {
      CreateBesideDelete(s, doc, ds, a, b, js, p, q);
    }
  }
}
