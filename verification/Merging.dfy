/**
 Merges of one document as the data store sees them, one access at a time (core/crdt/lwwreg.go, core/crdt/composite.go):
 the jobs of a sync session run on one transaction that locks each access by itself, so their merges may interleave.
 */
module Merging {
  import opened ByteOrder
  import opened Crdt

  // ---------- One merge ----------

  /** The access that a merge does next, with what it remembers of the accesses before. */
  datatype Point =
    | ReadPriority
    | ReadMarker(cur: nat)
    | ReadValue(slot: StoreKey)
    | PutValue(slot: StoreKey)
    | PutPriority
    | HasMarker
    | PutMarker
    | PutDeleted
    | ReadEmpty
    | MoveEmpty(e: Entry)
    | DropEmpty
    | QueryValues
    | MoveValue(left: map<string, Entry>)
    | DropValue(field: string, left: map<string, Entry>)
    | Ended

  /** A merge into the CRDT that the field name selects; `NO_FIELD` selects the composite. */
  datatype Job = Job(field: string, delta: Delta, at: Point)

  predicate IsDelete(field: string, d: Delta) { field == NO_FIELD && d.CompositeDelta? && d.status == Deleted }

  /** Where a merge starts; a delta that is of no use to a register ends it with an error. */
  function First(field: string, d: Delta): Point {
    if IsDelete(field, d) then PutDeleted
    else if field == NO_FIELD then HasMarker
    else if d.RegisterDelta? then ReadPriority
    else Ended
  }

  function ValuesOf(s: Data, doc: DocId): map<string, Entry> {
    map k | k in s && IsValueKey(k, doc) :: k.field := s[k]
  }

  function OrEnd(left: map<string, Entry>): Point { if left == map[] then Ended else MoveValue(left) }

  /** One access of `setValue`. */
  function AccessRegister(s: Data, f: FieldKey, w: Write, at: Point): (Data, Point) {
    match at
    case ReadPriority => (s, if Decodable(s, f) then ReadMarker(Current(s, f).priority) else Ended)
    case ReadMarker(cur) =>
      (s, if w.priority < cur then Ended
          else if w.priority == cur then ReadValue(SlotOf(s, f))
          else PutValue(SlotOf(s, f)))
    case ReadValue(slot) => (s, if Less(Payload(s, slot), w.data) then PutValue(slot) else Ended)
    case PutValue(slot) => (s[slot := Blob([LWW_REGISTER] + w.data)], PutPriority)
    case _ => (s[PriorityKeyOf(f) := Number(w.priority)], Ended)
  }

  /** One access of a composite merge that does not delete. */
  function AccessMarker(s: Data, doc: DocId, at: Point): (Data, Point) {
    if at.HasMarker? then (s, if PrimaryKey(doc) in s then Ended else PutMarker)
    else (s[PrimaryKey(doc) := Blob([OBJECT_MARKER])], Ended)
  }

  /** One access of a composite merge that deletes; the results of the query come in any order. */
  ghost function AccessDelete(s: Data, doc: DocId, at: Point): (Data, Point) {
    var empty := DataKey(doc, ValueKey, NO_FIELD);
    match at
    case PutDeleted => (s[PrimaryKey(doc) := Blob([DELETED_OBJECT_MARKER])], ReadEmpty)
    case ReadEmpty => (s, if empty in s then MoveEmpty(s[empty]) else QueryValues)
    case MoveEmpty(e) => (s[DataKey(doc, DeletedKey, COMPOSITE_NAMESPACE) := e], DropEmpty)
    case DropEmpty => (s - {empty}, QueryValues)
    case QueryValues => (s, OrEnd(ValuesOf(s, doc)))
    case MoveValue(left) =>
      if left == map[] then (s, Ended)
      else
        var g :| g in left;
        (s[DataKey(doc, DeletedKey, g) := left[g]], DropValue(g, left - {g}))
    case DropValue(g, left) => (s - {DataKey(doc, ValueKey, g)}, OrEnd(left))
    case _ => (s, Ended)
  }

  ghost function Access(s: Data, doc: DocId, j: Job): (Data, Job) {
    if j.at == Ended then (s, j)
    else
      var (s', at) :=
        if IsDelete(j.field, j.delta) then AccessDelete(s, doc, j.at)
        else if j.field == NO_FIELD then AccessMarker(s, doc, j.at)
        else if j.delta.RegisterDelta?
        then AccessRegister(s, FieldKey(doc, j.field), Write(j.delta.priority, j.delta.data), j.at)
        else (s, Ended);
      (s', j.(at := at))
  }

  /** The access is one that this merge can come to. */
  predicate OnTrack(j: Job) {
    || j.at == Ended
    || (if IsDelete(j.field, j.delta) then
          || j.at.PutDeleted? || j.at.ReadEmpty? || j.at.MoveEmpty? || j.at.DropEmpty?
          || j.at.QueryValues? || j.at.MoveValue? || j.at.DropValue?
        else if j.field == NO_FIELD then j.at.HasMarker? || j.at.PutMarker?
        else
          && j.delta.RegisterDelta?
          && (j.at.ReadPriority? || j.at.ReadMarker? || j.at.ReadValue? || j.at.PutValue? || j.at.PutPriority?))
  }

  // ---------- Merges that may not overlap ----------

  /** Between the first access and the last. */
  predicate Open(j: Job) { j.at != Ended && j.at != First(j.field, j.delta) }

  /** Two merges of one register, or a delete of the document and anything else. */
  predicate Conflict(a: Job, b: Job) {
    || (a.field == b.field && a.field != NO_FIELD)
    || IsDelete(a.field, a.delta) || IsDelete(b.field, b.delta)
  }

  ghost predicate NoClash(js: seq<Job>) {
    forall i, k :: 0 <= i < |js| && 0 <= k < |js| && i != k && Open(js[i]) && Open(js[k]) ==> !Conflict(js[i], js[k])
  }

  // ---------- What the store is ahead of ----------

  /** The merge has passed the access that decides it: it will have its effect, or it has none. */
  predicate Decided(j: Job) { j.at == Ended || j.at.PutPriority? || Deleting(j) }

  predicate Deleting(j: Job) { IsDelete(j.field, j.delta) && Open(j) }

  /** The job merges the delta into the CRDT that the delta is for. */
  predicate RightJob(doc: DocId, j: Job) {
    && OnTrack(j) && j.delta.Valid()
    && match j.delta
       case RegisterDelta(f, _, _) => f == FieldKey(doc, j.field)
       case CompositeDelta(d, _, _) => d == doc && j.field == NO_FIELD
  }

  /** What an open merge remembers is so in `t`, the store in which every decided merge is finished. */
  ghost predicate Remembers(doc: DocId, j: Job, t: Data) {
    var f := FieldKey(doc, j.field);
    var w := if j.delta.RegisterDelta? then Write(j.delta.priority, j.delta.data) else BOTTOM;
    match j.at
    case ReadMarker(cur) => Decodable(t, f) && cur == Current(t, f).priority
    case ReadValue(slot) => Decodable(t, f) && slot == SlotOf(t, f) && w.priority == Current(t, f).priority
    case PutValue(slot) => Decodable(t, f) && slot == SlotOf(t, f) && Beats(w, Current(t, f))
    case PutPriority => PriorityKeyOf(f) in t && t[PriorityKeyOf(f)] == Number(w.priority)
    case PutMarker => !IsDeleted(t, doc)
    case _ => true
  }

  ghost predicate Pending(doc: DocId, js: seq<Job>, k: StoreKey) {
    exists i :: 0 <= i < |js| && js[i].at.PutPriority? && k == PriorityKeyOf(FieldKey(doc, js[i].field))
  }

  ghost predicate SameAt(s: Data, t: Data, k: StoreKey) { (k in s <==> k in t) && (k in s ==> s[k] == t[k]) }

  /** Where a delete stands with the entries it moves. */
  ghost predicate Moving(s: Data, doc: DocId, at: Point) {
    var empty, tomb := DataKey(doc, ValueKey, NO_FIELD), DataKey(doc, DeletedKey, COMPOSITE_NAMESPACE);
    match at
    case MoveEmpty(e) => empty in s && s[empty] == e
    case DropEmpty => empty in s && tomb in s && s[tomb] == s[empty]
    case QueryValues => empty !in s
    case MoveValue(left) => empty !in s && left != map[] && left == ValuesOf(s, doc)
    case DropValue(g, left) =>
      && empty !in s && DataKey(doc, ValueKey, g) in s && DataKey(doc, DeletedKey, g) in s
      && s[DataKey(doc, DeletedKey, g)] == s[DataKey(doc, ValueKey, g)] && left == ValuesOf(s, doc) - {g}
    case _ => true
  }

  /** Without a delete under way, the store differs from the finished one only in pending priorities. */
  ghost predicate Ahead(s: Data, doc: DocId, js: seq<Job>, t: Data) {
    && (forall i :: 0 <= i < |js| ==> !Deleting(js[i]) && Remembers(doc, js[i], t))
    && (forall k :: !Pending(doc, js, k) ==> SameAt(s, t, k))
  }

  /** A delete under way is alone, and ends in the finished store. */
  ghost predicate OneDelete(s: Data, doc: DocId, js: seq<Job>, i: nat, t: Data) {
    && i < |js| && Deleting(js[i]) && Moving(s, doc, js[i].at) && t == Relocated(s, doc) && IsDeleted(s, doc)
    && (forall k :: 0 <= k < |js| && k != i ==> !Open(js[k]))
  }

  /** `t` is the store once every decided merge is finished. */
  ghost predicate Finishes(s: Data, doc: DocId, js: seq<Job>, t: Data) {
    Ahead(s, doc, js, t) || exists i: nat :: OneDelete(s, doc, js, i, t)
  }

  /** The store that finishes the decided merges once job i has done its access. */
  ghost function Advanced(t: Data, doc: DocId, s: Data, j: Job): Data {
    if !Decided(j) && Decided(Access(s, doc, j).1) then MergeDelta(t, j.delta) else t
  }

  lemma OnlyOpen(js: seq<Job>, i: nat, k: nat)
    requires NoClash(js) && i < |js| && k < |js| && i != k && Open(js[i]) && IsDelete(js[i].field, js[i].delta)
    ensures !Open(js[k])
  {
    if Open(js[k]) {
      assert Conflict(js[i], js[k]);
    }
  }

  lemma RelocatedSame(s: Data, u: Data, doc: DocId)
    requires forall k :: !IsValueKey(k, doc) ==>
               && (MovedFrom(s, doc, k) in s <==> MovedFrom(u, doc, k) in u)
               && (MovedFrom(s, doc, k) in s ==> s[MovedFrom(s, doc, k)] == u[MovedFrom(u, doc, k)])
    ensures Relocated(s, doc) == Relocated(u, doc)
  {
    forall k ensures SameAt(Relocated(s, doc), Relocated(u, doc), k) {
      RelocatedAt(s, doc, k);
      RelocatedAt(u, doc, k);
    }
  }

  lemma ValuesOfHas(s: Data, doc: DocId)
    ensures forall g :: g in ValuesOf(s, doc) <==> DataKey(doc, ValueKey, g) in s
    ensures forall g :: g in ValuesOf(s, doc) ==> ValuesOf(s, doc)[g] == s[DataKey(doc, ValueKey, g)]
    ensures ValuesOf(s, doc) == map[] ==> forall k :: k in s ==> !IsValueKey(k, doc)
  {
    forall k | k in s && IsValueKey(k, doc) ensures k.field in ValuesOf(s, doc) {
      assert k == DataKey(doc, ValueKey, k.field);
    }
  }

  lemma MoveStep(s: Data, doc: DocId, left: map<string, Entry>)
    requires Moving(s, doc, MoveValue(left))
    ensures
      var (s', at') := AccessDelete(s, doc, MoveValue(left));
      Relocated(s', doc) == Relocated(s, doc) && at'.DropValue? && Moving(s', doc, at')
  {
    var (s', at') := AccessDelete(s, doc, MoveValue(left));
    ValuesOfHas(s, doc);
    ValuesOfHas(s', doc);
    assert ValuesOf(s', doc) == ValuesOf(s, doc);
    RelocatedSame(s', s, doc);
  }

  lemma DropStep(s: Data, doc: DocId, g: string, left: map<string, Entry>)
    requires Moving(s, doc, DropValue(g, left))
    ensures
      var s' := s - {DataKey(doc, ValueKey, g)};
      Relocated(s', doc) == Relocated(s, doc) && DataKey(doc, ValueKey, NO_FIELD) !in s' && left == ValuesOf(s', doc)
  {
    var s' := s - {DataKey(doc, ValueKey, g)};
    ValuesOfHas(s, doc);
    ValuesOfHas(s', doc);
    assert ValuesOf(s', doc) == left;
    RelocatedSame(s', s, doc);
  }

  /** Each access of a delete after the first leaves the store on the way to the same relocated one. */
  lemma DeleteStep(s: Data, doc: DocId, at: Point)
    requires Moving(s, doc, at)
    requires at.ReadEmpty? || at.MoveEmpty? || at.DropEmpty? || at.QueryValues? || at.MoveValue? || at.DropValue?
    ensures
      var (s', at') := AccessDelete(s, doc, at);
      && Relocated(s', doc) == Relocated(s, doc)
      && (at' != Ended ==> Moving(s', doc, at'))
      && (at' == Ended ==> forall k :: k in s' ==> !IsValueKey(k, doc))
  {
    var (s', at') := AccessDelete(s, doc, at);
    match at
    case MoveValue(left) => MoveStep(s, doc, left);
    case DropValue(g, left) =>
      DropStep(s, doc, g, left);
      ValuesOfHas(s', doc);
    case QueryValues => ValuesOfHas(s, doc);
    case _ => RelocatedSame(s', s, doc);
  }

  lemma NothingToRelocate(s: Data, doc: DocId)
    requires forall k :: k in s ==> !IsValueKey(k, doc)
    ensures Relocated(s, doc) == s
  {
    forall k ensures SameAt(Relocated(s, doc), s, k) { RelocatedAt(s, doc, k); }
  }

  // ---------- Every access keeps it ----------

  ghost predicate AllRight(doc: DocId, js: seq<Job>) { forall i :: 0 <= i < |js| ==> RightJob(doc, js[i]) }

  lemma SameEverywhere(s: Data, t: Data)
    requires forall k :: SameAt(s, t, k)
    ensures s == t
  {
    forall k ensures k in s <==> k in t { assert SameAt(s, t, k); }
    forall k | k in s ensures s[k] == t[k] { assert SameAt(s, t, k); }
  }

  /** With no merge open, nothing is pending. */
  lemma NothingOpen(s: Data, doc: DocId, js: seq<Job>, t: Data)
    requires AllRight(doc, js) && Finishes(s, doc, js, t) && forall k :: 0 <= k < |js| ==> !Open(js[k])
    ensures s == t
  {
    forall k ensures SameAt(s, t, k) { assert !Pending(doc, js, k); }
    SameEverywhere(s, t);
  }

  lemma BeginDelete(s: Data, doc: DocId, js: seq<Job>, i: nat, t: Data)
    requires i < |js| && AllRight(doc, js) && Finishes(s, doc, js, t) && js[i].at == PutDeleted
    requires NoClash(js[i := Access(s, doc, js[i]).1])
    ensures Finishes(Access(s, doc, js[i]).0, doc, js[i := Access(s, doc, js[i]).1], MergeDelta(t, js[i].delta))
  {
    var (s', j) := Access(s, doc, js[i]);
    var js' := js[i := j];
    forall k | 0 <= k < |js| && k != i ensures !Open(js[k]) {
      OnlyOpen(js', i, k);
      assert js'[k] == js[k];
    }
    NothingOpen(s, doc, js, t);
    assert OneDelete(s', doc, js', i, MergeDelta(t, js[i].delta));
  }

  lemma DeleteAccess(s: Data, doc: DocId, j: Job)
    requires RightJob(doc, j) && Deleting(j) && Moving(s, doc, j.at) && IsDeleted(s, doc)
    ensures
      var (s', j') := Access(s, doc, j);
      && Relocated(s', doc) == Relocated(s, doc) && IsDeleted(s', doc)
      && (j'.at == Ended ==> s' == Relocated(s, doc))
      && (j'.at != Ended ==> Deleting(j') && Moving(s', doc, j'.at))
  {
    DeleteStep(s, doc, j.at);
    var (s', j') := Access(s, doc, j);
    if j'.at == Ended {
      NothingToRelocate(s', doc);
    }
  }

  lemma DeleteEnds(s: Data, doc: DocId, js: seq<Job>, i: nat, t: Data, j: Job)
    requires AllRight(doc, js) && OneDelete(s, doc, js, i, t) && j.at == Ended
    ensures Ahead(t, doc, js[i := j], t)
  {
  }

  lemma ContinueDelete(s: Data, doc: DocId, js: seq<Job>, i: nat, t: Data)
    requires AllRight(doc, js) && OneDelete(s, doc, js, i, t)
    ensures Finishes(Access(s, doc, js[i]).0, doc, js[i := Access(s, doc, js[i]).1], t)
  {
    DeleteAccess(s, doc, js[i]);
    var s', j := Access(s, doc, js[i]).0, Access(s, doc, js[i]).1;
    if j.at == Ended {
      DeleteEnds(s, doc, js, i, t, j);
    } else {
      assert OneDelete(s', doc, js[i := j], i, t);
    }
  }

  lemma AccessIsRight(s: Data, doc: DocId, j: Job)
    requires RightJob(doc, j)
    ensures RightJob(doc, Access(s, doc, j).1)
    ensures Access(s, doc, j).1 == j.(at := Access(s, doc, j).1.at)
  {
  }

  lemma KeepRegister(doc: DocId, j: Job, t: Data, f: FieldKey, w: Write)
    requires RightJob(doc, j) && Remembers(doc, j, t) && Decodable(t, f)
    requires Open(j) && j.delta.RegisterDelta? ==> j.delta.key != f
    ensures Remembers(doc, j, MergeRegister(t, f, w))
  {
  }

  lemma NotPending(doc: DocId, js: seq<Job>, i: nat, j: Job)
    requires AllRight(doc, js) && i < |js| && NoClash(js[i := j]) && Open(j) && j.field == js[i].field != NO_FIELD
    requires js[i].at != PutPriority
    ensures !Pending(doc, js, PriorityKeyOf(FieldKey(doc, j.field)))
  {
    var js' := js[i := j];
    forall k | 0 <= k < |js| && js[k].at.PutPriority? ensures js[k].field != j.field {
      assert js'[k] == js[k] && js'[i] == j && Open(js'[k]);
      assert !Conflict(js'[k], js'[i]);
    }
  }

  /** A read of `setValue` sees what the finished store holds. */
  lemma RegisterRead(s: Data, doc: DocId, js: seq<Job>, i: nat, t: Data)
    requires AllRight(doc, js) && i < |js| && Ahead(s, doc, js, t) && Decodable(t, FieldKey(doc, js[i].field))
    requires js[i].at.ReadPriority? || js[i].at.ReadMarker? || js[i].at.ReadValue?
    requires js[i].at.ReadPriority? ==> !Pending(doc, js, PriorityKeyOf(FieldKey(doc, js[i].field)))
    ensures
      var (s', j) := Access(s, doc, js[i]);
      && s' == s && Remembers(doc, j, t) && !Deleting(j) && j.at != PutPriority
      && (j.at == Ended ==> MergeDelta(t, js[i].delta) == t)
  {
    var f := FieldKey(doc, js[i].field);
    assert !Pending(doc, js, PrimaryKey(doc)) && SameAt(s, t, PrimaryKey(doc));
    assert !Pending(doc, js, SlotOf(t, f)) && SameAt(s, t, SlotOf(t, f));
    if js[i].at.ReadPriority? {
      assert SameAt(s, t, PriorityKeyOf(f));
    }
  }

  lemma PendingKept(doc: DocId, js: seq<Job>, i: nat, j: Job, k: StoreKey)
    requires i < |js| && js[i].at != PutPriority && Pending(doc, js, k)
    ensures Pending(doc, js[i := j], k)
  {
    var a :| 0 <= a < |js| && js[a].at.PutPriority? && k == PriorityKeyOf(FieldKey(doc, js[a].field));
    assert js[i := j][a] == js[a];
  }

  lemma ReadKeepsAhead(s: Data, doc: DocId, js: seq<Job>, i: nat, t: Data, j: Job)
    requires i < |js| && Ahead(s, doc, js, t) && Remembers(doc, j, t) && !Deleting(j)
    requires js[i].at != PutPriority && j.at != PutPriority
    ensures Ahead(s, doc, js[i := j], t)
  {
    var js' := js[i := j];
    forall k | !Pending(doc, js', k) ensures SameAt(s, t, k) {
      if Pending(doc, js, k) {
        PendingKept(doc, js, i, j, k);
      }
    }
  }

  lemma PutValueStep(s: Data, doc: DocId, js: seq<Job>, i: nat, t: Data)
    requires AllRight(doc, js) && i < |js| && Ahead(s, doc, js, t) && NoClash(js) && js[i].at.PutValue?
    ensures Ahead(Access(s, doc, js[i]).0, doc, js[i := Access(s, doc, js[i]).1], MergeDelta(t, js[i].delta))
  {
    var (s', j) := Access(s, doc, js[i]);
    var js', t' := js[i := j], MergeDelta(t, js[i].delta);
    var f := FieldKey(doc, js[i].field);
    assert Remembers(doc, js[i], t);
    forall k | 0 <= k < |js'| ensures !Deleting(js'[k]) && Remembers(doc, js'[k], t') {
      if k != i {
        assert Open(js[k]) ==> !Conflict(js[i], js[k]);
        KeepRegister(doc, js[k], t, f, Write(j.delta.priority, j.delta.data));
      }
    }
    forall k | !Pending(doc, js', k) ensures SameAt(s', t', k) {
      assert js'[i].at.PutPriority?;
      if Pending(doc, js, k) {
        PendingKept(doc, js, i, j, k);
      }
      assert SameAt(s, t, k);
    }
  }

  lemma PutPriorityStep(s: Data, doc: DocId, js: seq<Job>, i: nat, t: Data)
    requires AllRight(doc, js) && i < |js| && Ahead(s, doc, js, t) && js[i].at.PutPriority?
    ensures Ahead(Access(s, doc, js[i]).0, doc, js[i := Access(s, doc, js[i]).1], t)
  {
    var (s', j) := Access(s, doc, js[i]);
    var js' := js[i := j];
    assert Remembers(doc, js[i], t);
    forall k | !Pending(doc, js', k) ensures SameAt(s', t, k) {
      if Pending(doc, js, k) {
        var a :| 0 <= a < |js| && js[a].at.PutPriority? && k == PriorityKeyOf(FieldKey(doc, js[a].field));
        assert a != i ==> js'[a] == js[a];
      } else {
        assert SameAt(s, t, k);
      }
    }
  }

  /** A marker is that of a document, or that of a deleted one. */
  predicate MarkerShape(t: Data, doc: DocId) {
    PrimaryKey(doc) in t ==> IsDeleted(t, doc) || t[PrimaryKey(doc)] == Blob([OBJECT_MARKER])
  }

  lemma PutMarkerStep(s: Data, doc: DocId, js: seq<Job>, i: nat, t: Data)
    requires AllRight(doc, js) && i < |js| && Ahead(s, doc, js, t) && js[i].at.PutMarker? && MarkerShape(t, doc)
    ensures Ahead(Access(s, doc, js[i]).0, doc, js[i := Access(s, doc, js[i]).1], MergeDelta(t, js[i].delta))
  {
    var (s', j) := Access(s, doc, js[i]);
    var js', t' := js[i := j], MergeDelta(t, js[i].delta);
    assert Remembers(doc, js[i], t);
    forall k | 0 <= k < |js'| ensures !Deleting(js'[k]) && Remembers(doc, js'[k], t') {
      assert Remembers(doc, js[k], t);
    }
    forall k | !Pending(doc, js', k) ensures SameAt(s', t', k) {
      if Pending(doc, js, k) {
        PendingKept(doc, js, i, j, k);
      }
      assert SameAt(s, t, k);
    }
  }

  lemma MarkerStep(s: Data, doc: DocId, js: seq<Job>, i: nat, t: Data)
    requires AllRight(doc, js) && i < |js| && Finishes(s, doc, js, t) && js[i].at.HasMarker?
    ensures Access(s, doc, js[i]).0 == s
    ensures Finishes(s, doc, js[i := Access(s, doc, js[i]).1], Advanced(t, doc, s, js[i]))
  {
    var j := Access(s, doc, js[i]).1;
    if Ahead(s, doc, js, t) {
      assert !Pending(doc, js, PrimaryKey(doc)) && SameAt(s, t, PrimaryKey(doc));
      ReadKeepsAhead(s, doc, js, i, t, j);
    } else {
      var a: nat :| OneDelete(s, doc, js, a, t);
      RelocatedAt(s, doc, PrimaryKey(doc));
      assert OneDelete(s, doc, js[i := j], a, t);
    }
  }

  lemma ReadStep(s: Data, doc: DocId, js: seq<Job>, i: nat, t: Data)
    requires AllRight(doc, js) && i < |js| && Ahead(s, doc, js, t) && Decodable(t, FieldKey(doc, js[i].field))
    requires js[i].at.ReadPriority? || js[i].at.ReadMarker? || js[i].at.ReadValue?
    requires NoClash(js[i := Access(s, doc, js[i]).1]) && Decodable(s, FieldKey(doc, js[i].field))
    ensures Ahead(s, doc, js[i := Access(s, doc, js[i]).1], Advanced(t, doc, s, js[i])) && Access(s, doc, js[i]).0 == s
  {
    var j := Access(s, doc, js[i]).1;
    if js[i].at.ReadPriority? {
      NotPending(doc, js, i, j);
    }
    RegisterRead(s, doc, js, i, t);
    ReadKeepsAhead(s, doc, js, i, t, j);
  }

  lemma AccessWellTyped(s: Data, doc: DocId, js: seq<Job>, i: nat, t: Data)
    requires WellTyped(s) && AllRight(doc, js) && i < |js| && Finishes(s, doc, js, t)
    ensures WellTyped(Access(s, doc, js[i]).0)
  {
    var s' := Access(s, doc, js[i]).0;
    assert js[i].at.PutValue? ==> Remembers(doc, js[i], t);
    forall f ensures Decodable(s', f) { assert Decodable(s, f); }
  }

  /** While a delete is under way, another merge can only find a marker and end. */
  lemma BesideDelete(s: Data, doc: DocId, js: seq<Job>, i: nat, a: nat, t: Data)
    requires WellTyped(s) && AllRight(doc, js) && OneDelete(s, doc, js, a, t) && i < |js| && i != a && js[i].at != Ended
    requires NoClash(js[i := Access(s, doc, js[i]).1])
    ensures js[i].at.HasMarker?
  {
    var j := Access(s, doc, js[i]).1;
    assert Decodable(s, FieldKey(doc, js[i].field));
    if Open(j) {
      assert js[i := j][a] == js[a];
      OnlyOpen(js[i := j], a, i);
    }
  }

  /**
   One access of one merge: if no two conflicting merges are open before or after it, the store stays on the way to
   the store in which every decided merge is finished; a merge that this access decides is added to those.
   */
  lemma AccessKeepsFinishing(s: Data, doc: DocId, js: seq<Job>, i: nat, t: Data)
    requires WellTyped(s) && WellTyped(t) && MarkerShape(t, doc) && AllRight(doc, js) && Finishes(s, doc, js, t)
    requires i < |js| && js[i].at != Ended && NoClash(js) && NoClash(js[i := Access(s, doc, js[i]).1])
    ensures Finishes(Access(s, doc, js[i]).0, doc, js[i := Access(s, doc, js[i]).1], Advanced(t, doc, s, js[i]))
  {
    assert Decodable(s, FieldKey(doc, js[i].field)) && Decodable(t, FieldKey(doc, js[i].field));
    if a: nat :| OneDelete(s, doc, js, a, t) {
      if a == i {
        ContinueDelete(s, doc, js, i, t);
      } else {
        BesideDelete(s, doc, js, i, a, t);
        MarkerStep(s, doc, js, i, t);
      }
    } else {
      AheadStep(s, doc, js, i, t);
    }
  }

  lemma AheadStep(s: Data, doc: DocId, js: seq<Job>, i: nat, t: Data)
    requires MarkerShape(t, doc) && AllRight(doc, js) && Ahead(s, doc, js, t)
    requires i < |js| && js[i].at != Ended && NoClash(js) && NoClash(js[i := Access(s, doc, js[i]).1])
    requires Decodable(s, FieldKey(doc, js[i].field)) && Decodable(t, FieldKey(doc, js[i].field))
    ensures Finishes(Access(s, doc, js[i]).0, doc, js[i := Access(s, doc, js[i]).1], Advanced(t, doc, s, js[i]))
  {
    assert !Deleting(js[i]);
    match js[i].at
    case PutDeleted => BeginDelete(s, doc, js, i, t);
    case HasMarker => MarkerStep(s, doc, js, i, t);
    case PutMarker => PutMarkerStep(s, doc, js, i, t);
    case PutValue(_) => PutValueStep(s, doc, js, i, t);
    case PutPriority => PutPriorityStep(s, doc, js, i, t);
    case _ => ReadStep(s, doc, js, i, t);
  }

  lemma StaysDecided(s: Data, doc: DocId, j: Job)
    requires RightJob(doc, j) && Decided(j)
    ensures Decided(Access(s, doc, j).1)
  {
  }
}
