/**
 The replicated state of documents: last-writer-wins registers for the fields (core/crdt/lwwreg.go,
 core/crdt/base.go) and the composite that creates and deletes the document (core/crdt/composite.go).
 Every key of the data store is a `StoreKey`; a deleted document keeps its values, under `DeletedKey`.
 */
module Crdt {
  import opened ByteOrder

  // ---------- Keys, entries, deltas ----------

  datatype DocId = DocId(collection: nat, docKey: Bytes)

  /** The key of one register: a document and a field identifier. */
  datatype FieldKey = FieldKey(doc: DocId, field: string)

  datatype InstanceType = ValueKey | PriorityKey | DeletedKey

  datatype StoreKey =
    | PrimaryKey(doc: DocId)
    | DataKey(doc: DocId, inst: InstanceType, field: string)

  /** A stored byte string: an encoded priority, or anything else. */
  datatype Entry = Number(n: nat) | Blob(bytes: Bytes)

  type Data = map<StoreKey, Entry>

  const OBJECT_MARKER: Byte := 0xff
  const DELETED_OBJECT_MARKER: Byte := 0xfe
  const LWW_REGISTER: Byte := 1
  /** The field identifier of the composite, and that of a key that names no field. */
  const COMPOSITE_NAMESPACE := "C"
  const NO_FIELD := ""

  datatype Status = Active | Deleted

  datatype Delta =
    | RegisterDelta(key: FieldKey, priority: nat, data: Bytes)
    | CompositeDelta(doc: DocId, priority: nat, status: Status)
  {
    /** Register fields are numbers in decimal, so they are neither empty nor the composite's. */
    predicate Valid() {
      RegisterDelta? ==> key.field != NO_FIELD && key.field != COMPOSITE_NAMESPACE
    }
  }

  datatype Outcome = Ok | ErrMismatchedMergeType | ErrDecodingPriority

  // ---------- Reading a register ----------

  predicate IsDeleted(s: Data, doc: DocId) {
    PrimaryKey(doc) in s && s[PrimaryKey(doc)] == Blob([DELETED_OBJECT_MARKER])
  }

  function PriorityKeyOf(f: FieldKey): StoreKey { DataKey(f.doc, PriorityKey, f.field) }

  /** The key that holds the value: under `v`, or under `d` once the document is deleted. */
  function SlotOf(s: Data, f: FieldKey): StoreKey {
    DataKey(f.doc, if IsDeleted(s, f.doc) then DeletedKey else ValueKey, f.field)
  }

  /** A value without its leading type byte; an absent value reads as the empty one. */
  function Payload(s: Data, k: StoreKey): Bytes {
    if k in s && s[k].Blob? && |s[k].bytes| > 0 then s[k].bytes[1..] else []
  }

  predicate Decodable(s: Data, f: FieldKey) {
    PriorityKeyOf(f) in s ==> s[PriorityKeyOf(f)].Number?
  }

  /** A timestamped write. `Write(0, [])` is also what an absent register amounts to. */
  datatype Write = Write(priority: nat, data: Bytes)

  function Current(s: Data, f: FieldKey): Write
    requires Decodable(s, f)
  {
    Write(if PriorityKeyOf(f) in s then s[PriorityKeyOf(f)].n else 0, Payload(s, SlotOf(s, f)))
  }

  /** The register's order on writes: priority first, then bytes. */
  predicate Beats(w: Write, cur: Write) {
    w.priority > cur.priority || (w.priority == cur.priority && Less(cur.data, w.data))
  }

  // ---------- What merging does ----------

  function MergeRegister(s: Data, f: FieldKey, w: Write): Data
    requires Decodable(s, f)
  {
    if Beats(w, Current(s, f))
    then s[SlotOf(s, f) := Blob([LWW_REGISTER] + w.data)][PriorityKeyOf(f) := Number(w.priority)]
    else s
  }

  predicate IsValueKey(k: StoreKey, doc: DocId) {
    k.DataKey? && k.doc == doc && k.inst == ValueKey
  }

  /** Where `deleteWithPrefix` puts the entry of a value key. */
  function Tombstone(k: StoreKey): StoreKey
    requires k.DataKey?
  {
    DataKey(k.doc, DeletedKey, if k.field == NO_FIELD then COMPOSITE_NAMESPACE else k.field)
  }

  /** The key whose entry ends up at `k` when the values of `doc` move from `v` to `d`. */
  function MovedFrom(s: Data, doc: DocId, k: StoreKey): StoreKey {
    if k.DataKey? && k.doc == doc && k.inst == DeletedKey then
      var under := DataKey(doc, ValueKey, k.field);
      var marker := DataKey(doc, ValueKey, NO_FIELD);
      if k.field != NO_FIELD && under in s then under
      else if k.field == COMPOSITE_NAMESPACE && marker in s then marker
      else k
    else k
  }

  /** Every value of `doc` moved from `v` to `d`, everything else left alone. */
  function Relocated(s: Data, doc: DocId): Data {
    map k | k in s.Keys + (set v | v in s && IsValueKey(v, doc) :: Tombstone(v)) && !IsValueKey(k, doc)
            && MovedFrom(s, doc, k) in s
      :: s[MovedFrom(s, doc, k)]
  }

  function MergeComposite(s: Data, doc: DocId, status: Status): Data {
    if status == Deleted then Relocated(s[PrimaryKey(doc) := Blob([DELETED_OBJECT_MARKER])], doc)
    else if PrimaryKey(doc) in s then s
    else s[PrimaryKey(doc) := Blob([OBJECT_MARKER])]
  }

  /** One merge; a register whose stored priority does not decode reports an error and stays as it is. */
  function MergeDelta(s: Data, d: Delta): Data {
    match d
    case RegisterDelta(f, p, v) => if Decodable(s, f) then MergeRegister(s, f, Write(p, v)) else s
    case CompositeDelta(doc, _, status) => MergeComposite(s, doc, status)
  }

  predicate Mergeable(s: Data, d: Delta) {
    d.RegisterDelta? ==> Decodable(s, d.key)
  }

  /** Every stored priority decodes, which every merge preserves. */
  ghost predicate WellTyped(s: Data) {
    forall f :: Decodable(s, f)
  }

  lemma MergeKeepsWellTyped(s: Data, d: Delta)
    requires WellTyped(s)
    ensures WellTyped(MergeDelta(s, d))
  {
    forall f ensures Decodable(MergeDelta(s, d), f) {
      assert Decodable(s, f);
      if d.CompositeDelta? {
        RelocatedAt(s[PrimaryKey(d.doc) := Blob([DELETED_OBJECT_MARKER])], d.doc, PriorityKeyOf(f));
      }
    }
  }

  function MergeAll(s: Data, ds: seq<Delta>): Data {
    if ds == [] then s else MergeDelta(MergeAll(s, ds[..|ds| - 1]), ds[|ds| - 1])
  }

  // ---------- The state that a set of deltas stands for ----------

  ghost predicate HasComposite(ds: set<Delta>, doc: DocId) {
    exists d :: d in ds && d.CompositeDelta? && d.doc == doc
  }

  ghost predicate HasDelete(ds: set<Delta>, doc: DocId) {
    exists d :: d in ds && d.CompositeDelta? && d.doc == doc && d.status == Deleted
  }

  /** The document is marked exactly when some composite names it, as deleted when some delete does. */
  ghost predicate MarkerRight(s: Data, ds: set<Delta>, doc: DocId) {
    && (PrimaryKey(doc) in s <==> HasComposite(ds, doc))
    && (PrimaryKey(doc) in s ==>
          s[PrimaryKey(doc)] == Blob([if HasDelete(ds, doc) then DELETED_OBJECT_MARKER else OBJECT_MARKER]))
  }

  const BOTTOM := Write(0, [])

  /** Only the slot that fits the marker is filled, and only together with a priority. */
  predicate ShapeRight(s: Data, f: FieldKey)
    requires Decodable(s, f)
  {
    var w := Current(s, f);
    && (w == BOTTOM ==>
          && PriorityKeyOf(f) !in s
          && DataKey(f.doc, ValueKey, f.field) !in s
          && DataKey(f.doc, DeletedKey, f.field) !in s)
    && (w != BOTTOM ==>
          && PriorityKeyOf(f) in s
          && SlotOf(s, f) in s && s[SlotOf(s, f)] == Blob([LWW_REGISTER] + w.data)
          && DataKey(f.doc, if IsDeleted(s, f.doc) then ValueKey else DeletedKey, f.field) !in s)
  }

  /** The register holds the greatest write among the deltas for it. */
  ghost predicate RegisterRight(s: Data, ds: set<Delta>, f: FieldKey) {
    && Decodable(s, f)
    && ShapeRight(s, f)
    && (Current(s, f) != BOTTOM ==> RegisterDelta(f, Current(s, f).priority, Current(s, f).data) in ds)
    && (forall d :: d in ds && d.RegisterDelta? && d.key == f ==> !Beats(Write(d.priority, d.data), Current(s, f)))
  }

  ghost predicate Represents(s: Data, ds: set<Delta>) {
    && (forall doc :: MarkerRight(s, ds, doc))
    && (forall f :: RegisterRight(s, ds, f))
  }

  // ---------- Strong eventual consistency ----------

  lemma BeatsTotal(a: Write, b: Write)
    ensures a == b || Beats(a, b) || Beats(b, a)
  {
    LessTotal(a.data, b.data);
  }

  lemma BeatsTransitive(a: Write, b: Write, c: Write)
    requires Beats(a, b) && Beats(b, c)
    ensures Beats(a, c)
  {
    if a.priority == b.priority == c.priority {
      LessTransitive(c.data, b.data, a.data);
    }
  }

  lemma NotBeaten(s1: Data, s2: Data, ds: set<Delta>, f: FieldKey)
    requires RegisterRight(s1, ds, f) && RegisterRight(s2, ds, f)
    ensures !Beats(Current(s1, f), Current(s2, f))
  {
    var w := Current(s1, f);
    if w != BOTTOM {
      var d := RegisterDelta(f, w.priority, w.data);
      assert d in ds && Write(d.priority, d.data) == w;
    }
  }

  /** A set of deltas stands for one store only: every key is determined. */
  lemma RepresentsUnique(s1: Data, s2: Data, ds: set<Delta>)
    requires Represents(s1, ds) && Represents(s2, ds)
    ensures s1 == s2
  {
    forall k: StoreKey
      ensures k in s1 <==> k in s2
      ensures k in s1 ==> s1[k] == s2[k]
    {
      assert MarkerRight(s1, ds, k.doc) && MarkerRight(s2, ds, k.doc);
      if k.DataKey? {
        var f := FieldKey(k.doc, k.field);
        assert RegisterRight(s1, ds, f) && RegisterRight(s2, ds, f);
        NotBeaten(s1, s2, ds, f);
        NotBeaten(s2, s1, ds, f);
        BeatsTotal(Current(s1, f), Current(s2, f));
        assert ShapeRight(s1, f) && ShapeRight(s2, f);
        assert IsDeleted(s1, k.doc) == IsDeleted(s2, k.doc);
        match k.inst
        case PriorityKey => assert k == PriorityKeyOf(f);
        case ValueKey => assert k == DataKey(f.doc, ValueKey, f.field);
        case DeletedKey => assert k == DataKey(f.doc, DeletedKey, f.field);
      }
    }
  }

  lemma EmptyRepresentsNothing()
    ensures Represents(map[], {})
  {
    forall f ensures RegisterRight(map[], {}, f) {}
  }

  lemma RegisterStep(s: Data, ds: set<Delta>, d: Delta)
    requires Represents(s, ds) && d.RegisterDelta?
    ensures Represents(MergeDelta(s, d), ds + {d})
  {
    assert RegisterRight(s, ds, d.key);
    var t := MergeDelta(s, d);
    var w := Write(d.priority, d.data);
    forall doc ensures MarkerRight(t, ds + {d}, doc) {
      assert MarkerRight(s, ds, doc);
    }
    forall f ensures RegisterRight(t, ds + {d}, f) {
      assert RegisterRight(s, ds, f);
      assert IsDeleted(t, f.doc) == IsDeleted(s, f.doc);
      if f == d.key && Beats(w, Current(s, f)) {
        assert ([LWW_REGISTER] + w.data)[1..] == w.data;
        assert Current(t, f) == w;
        forall e | e in ds && e.RegisterDelta? && e.key == f
          ensures !Beats(Write(e.priority, e.data), w)
        {
          if Beats(Write(e.priority, e.data), w) {
            BeatsTransitive(Write(e.priority, e.data), w, Current(s, f));
          }
        }
        LessIrreflexive(w.data);
      }
    }
  }

  ghost predicate AllValid(ds: set<Delta>) {
    forall d :: d in ds ==> d.Valid()
  }

  lemma RelocatedAt(s: Data, doc: DocId, k: StoreKey)
    ensures k in Relocated(s, doc) <==> !IsValueKey(k, doc) && MovedFrom(s, doc, k) in s
  {
    var from := MovedFrom(s, doc, k);
    if !IsValueKey(k, doc) && from in s && from != k {
      assert IsValueKey(from, doc) && Tombstone(from) == k;
    }
  }

  lemma CompositeMarker(s: Data, ds: set<Delta>, d: Delta, doc: DocId)
    requires MarkerRight(s, ds, doc) && d.CompositeDelta?
    ensures MarkerRight(MergeDelta(s, d), ds + {d}, doc)
  {
    RelocatedAt(s[PrimaryKey(d.doc) := Blob([DELETED_OBJECT_MARKER])], d.doc, PrimaryKey(doc));
    assert d in ds + {d};
    assert HasDelete(ds + {d}, doc) <==> HasDelete(ds, doc) || (doc == d.doc && d.status == Deleted);
  }

  lemma CompositeStep(s: Data, ds: set<Delta>, d: Delta)
    requires Represents(s, ds) && AllValid(ds) && d.CompositeDelta?
    ensures Represents(MergeDelta(s, d), ds + {d})
  {
    var t := MergeDelta(s, d);
    var marked := s[PrimaryKey(d.doc) := Blob([DELETED_OBJECT_MARKER])];
    forall doc ensures MarkerRight(t, ds + {d}, doc) { CompositeMarker(s, ds, d, doc); }
    forall f ensures RegisterRight(t, ds + {d}, f) {
      assert RegisterRight(s, ds, f) && MarkerRight(s, ds, f.doc) && MarkerRight(t, ds + {d}, f.doc);
      RelocatedAt(marked, d.doc, PriorityKeyOf(f));
      RelocatedAt(marked, d.doc, DataKey(f.doc, ValueKey, f.field));
      RelocatedAt(marked, d.doc, DataKey(f.doc, DeletedKey, f.field));
      if d.status == Deleted && f.doc == d.doc {
        assert RegisterRight(s, ds, FieldKey(d.doc, NO_FIELD));
        assert RegisterRight(s, ds, FieldKey(d.doc, COMPOSITE_NAMESPACE));
        assert DataKey(d.doc, ValueKey, NO_FIELD) !in s;
      }
      assert Current(t, f) == Current(s, f);
    }
  }

  lemma MergeStep(s: Data, ds: set<Delta>, d: Delta)
    requires Represents(s, ds) && AllValid(ds)
    ensures Represents(MergeDelta(s, d), ds + {d})
  {
    match d
    case RegisterDelta(_, _, _) => RegisterStep(s, ds, d);
    case CompositeDelta(_, _, _) => CompositeStep(s, ds, d);
  }

  ghost function Elements(ds: seq<Delta>): set<Delta> { set d | d in ds }

  lemma {:induction false} MergeAllRepresents(s: Data, base: set<Delta>, ds: seq<Delta>)
    requires Represents(s, base) && AllValid(base) && AllValid(Elements(ds))
    ensures Represents(MergeAll(s, ds), base + Elements(ds))
  {
    if ds == [] {
      assert base + Elements(ds) == base;
    } else {
      var init, last := ds[..|ds| - 1], ds[|ds| - 1];
      assert ds == init + [last];
      assert base + Elements(ds) == base + Elements(init) + {last};
      MergeAllRepresents(s, base, init);
      MergeStep(MergeAll(s, init), base + Elements(init), last);
    }
  }

  /** Any two deliveries of the same deltas, in any order and with any repetition, give the same store. */
  lemma StrongEventualConsistency(ds1: seq<Delta>, ds2: seq<Delta>)
    requires AllValid(Elements(ds1)) && Elements(ds1) == Elements(ds2)
    ensures MergeAll(map[], ds1) == MergeAll(map[], ds2)
  {
    EmptyRepresentsNothing();
    MergeAllRepresents(map[], {}, ds1);
    MergeAllRepresents(map[], {}, ds2);
    RepresentsUnique(MergeAll(map[], ds1), MergeAll(map[], ds2), {} + Elements(ds1));
  }

  /** Merging a write is taking the greater of two writes, and touches no other register and no marker. */
  lemma MergeRegisterIsJoin(s: Data, f: FieldKey, w: Write, g: FieldKey)
    requires Decodable(s, f) && Decodable(s, g)
    ensures
      var t := MergeRegister(s, f, w);
      && Decodable(t, g)
      && Current(t, f) == (if Beats(w, Current(s, f)) then w else Current(s, f))
      && (g != f ==> Current(t, g) == Current(s, g))
      && (forall doc :: IsDeleted(t, doc) == IsDeleted(s, doc))
  {
    assert ([LWW_REGISTER] + w.data)[1..] == w.data;
  }

  // ---------- Deletion is permanent and partitions the values ----------

  /** What can happen to the data store: a merge, or the marker that creating an empty document leaves. */
  datatype StoreStep = Merge(d: Delta) | MarkEmpty(doc: DocId)

  function StepStore(s: Data, step: StoreStep): Data {
    match step
    case Merge(d) => MergeDelta(s, d)
    case MarkEmpty(doc) =>
      if PrimaryKey(doc) in s then s
      else s[DataKey(doc, ValueKey, NO_FIELD) := Blob([OBJECT_MARKER])]
  }

  function RunStore(s: Data, steps: seq<StoreStep>): Data {
    if steps == [] then s else StepStore(RunStore(s, steps[..|steps| - 1]), steps[|steps| - 1])
  }

  /** A deleted document has nothing under `v`, any other document has nothing under `d`. */
  ghost predicate Partitioned(s: Data, doc: DocId) {
    forall field ::
      && (IsDeleted(s, doc) ==> DataKey(doc, ValueKey, field) !in s)
      && (!IsDeleted(s, doc) ==> DataKey(doc, DeletedKey, field) !in s)
  }

  lemma StepKeepsPartition(s: Data, step: StoreStep, doc: DocId)
    requires Partitioned(s, doc)
    ensures Partitioned(StepStore(s, step), doc)
    ensures IsDeleted(s, doc) ==> IsDeleted(StepStore(s, step), doc)
  {
    if step.Merge? && step.d.CompositeDelta? && step.d.status == Deleted {
      var marked := s[PrimaryKey(step.d.doc) := Blob([DELETED_OBJECT_MARKER])];
      RelocatedAt(marked, step.d.doc, PrimaryKey(doc));
      forall field ensures
        && (IsDeleted(StepStore(s, step), doc) ==> DataKey(doc, ValueKey, field) !in StepStore(s, step))
        && (!IsDeleted(StepStore(s, step), doc) ==> DataKey(doc, DeletedKey, field) !in StepStore(s, step))
      {
        RelocatedAt(marked, step.d.doc, DataKey(doc, ValueKey, field));
        RelocatedAt(marked, step.d.doc, DataKey(doc, DeletedKey, field));
      }
    }
  }

  lemma {:induction false} RunKeepsPartition(s: Data, steps: seq<StoreStep>, doc: DocId)
    requires Partitioned(s, doc)
    ensures Partitioned(RunStore(s, steps), doc)
    ensures IsDeleted(s, doc) ==> IsDeleted(RunStore(s, steps), doc)
  {
    if steps != [] {
      RunKeepsPartition(s, steps[..|steps| - 1], doc);
      StepKeepsPartition(RunStore(s, steps[..|steps| - 1]), steps[|steps| - 1], doc);
    }
  }

  lemma {:induction false} RunSplit(s: Data, a: seq<StoreStep>, b: seq<StoreStep>)
    ensures RunStore(s, a + b) == RunStore(RunStore(s, a), b)
  {
    if b == [] {
      assert a + b == a;
    } else {
      assert (a + b)[..|a + b| - 1] == a + b[..|b| - 1];
      RunSplit(s, a, b[..|b| - 1]);
    }
  }

  /** In every run from an empty store: values are partitioned, and a deletion is never undone. */
  lemma DeletionIsPermanent(before: seq<StoreStep>, after: seq<StoreStep>, doc: DocId)
    ensures Partitioned(RunStore(map[], before), doc)
    ensures IsDeleted(RunStore(map[], before), doc) ==> IsDeleted(RunStore(map[], before + after), doc)
  {
    RunKeepsPartition(map[], before, doc);
    RunKeepsPartition(RunStore(map[], before), after, doc);
    RunSplit(map[], before, after);
  }

  // ---------- The objects that merge ----------

  class DataStore {
    var data: Data

    constructor ()
      ensures data == map[]
    {
      data := map[];
    }
  }

  class LWWRegister {
    const store: DataStore
    const key: FieldKey

    constructor (store: DataStore, key: FieldKey)
      ensures this.store == store && this.key == key
    {
      this.store := store;
      this.key := key;
    }

    method GetPriority() returns (ok: bool, priority: nat)
      ensures ok <==> Decodable(store.data, key)
      ensures ok ==> priority == Current(store.data, key).priority
    {
      var k := PriorityKeyOf(key);
      if k !in store.data {
        return true, 0;
      }
      match store.data[k]
      case Number(n) => return true, n;
      case Blob(_) => return false, 0;
    }

    method SetPriority(priority: nat)
      modifies store
      ensures store.data == old(store.data)[PriorityKeyOf(key) := Number(priority)]
    {
      store.data := store.data[PriorityKeyOf(key) := Number(priority)];
    }

    /** Reads the value of a document that is not deleted. */
    method Value() returns (found: bool, val: Bytes)
      ensures found <==> DataKey(key.doc, ValueKey, key.field) in store.data
      ensures val == Payload(store.data, DataKey(key.doc, ValueKey, key.field))
    {
      var k := DataKey(key.doc, ValueKey, key.field);
      if k in store.data && store.data[k].Blob? && |store.data[k].bytes| > 0 {
        return true, store.data[k].bytes[1..];
      }
      return k in store.data, [];
    }

    method Merge(delta: Delta) returns (r: Outcome)
      modifies store
      ensures r == (if delta.CompositeDelta? then ErrMismatchedMergeType
                    else if Decodable(old(store.data), key) then Ok
                    else ErrDecodingPriority)
      ensures r == Ok ==> store.data == MergeRegister(old(store.data), key, Write(delta.priority, delta.data))
      ensures r != Ok ==> store.data == old(store.data)
    {
      if delta.CompositeDelta? {
        return ErrMismatchedMergeType;
      }
      r := SetValue(delta.data, delta.priority);
    }

    method SetValue(val: Bytes, priority: nat) returns (r: Outcome)
      modifies store
      ensures r == (if Decodable(old(store.data), key) then Ok else ErrDecodingPriority)
      ensures r == Ok ==> store.data == MergeRegister(old(store.data), key, Write(priority, val))
      ensures r != Ok ==> store.data == old(store.data)
    {
      var ok, curPriority := GetPriority();
      if !ok {
        return ErrDecodingPriority;
      }
      var k := DataKey(key.doc, ValueKey, key.field);
      var marker := PrimaryKey(key.doc);
      if marker in store.data && store.data[marker] == Blob([DELETED_OBJECT_MARKER]) {
        k := DataKey(key.doc, DeletedKey, key.field);
      }
      if priority < curPriority {
        return Ok;
      } else if priority == curPriority {
        var curValue := Payload(store.data, k);
        if !Less(curValue, val) {
          return Ok;
        }
      }
      store.data := store.data[k := Blob([LWW_REGISTER] + val)];
      SetPriority(priority);
      return Ok;
    }
  }

  /** `s` once the values of these fields of `doc` have moved from `v` to `d`. */
  ghost function MoveFields(s: Data, doc: DocId, fields: set<string>): Data
    requires forall g :: g in fields ==> DataKey(doc, ValueKey, g) in s
  {
    map k | k in s.Keys + (set g | g in fields :: DataKey(doc, DeletedKey, g))
            && !(IsValueKey(k, doc) && k.field in fields)
      :: if k.DataKey? && k.doc == doc && k.inst == DeletedKey && k.field in fields
         then s[DataKey(doc, ValueKey, k.field)] else s[k]
  }

  lemma MoveOneMore(s: Data, doc: DocId, fields: set<string>, g: string)
    requires forall h :: h in fields + {g} ==> DataKey(doc, ValueKey, h) in s
    requires g !in fields
    ensures
      var t := MoveFields(s, doc, fields);
      var v := DataKey(doc, ValueKey, g);
      v in t && t[DataKey(doc, DeletedKey, g) := t[v]] - {v} == MoveFields(s, doc, fields + {g})
  {
  }

  /** `s` once the marker of an empty document has moved. */
  ghost function MarkerMoved(s: Data, doc: DocId): Data {
    var marker := DataKey(doc, ValueKey, NO_FIELD);
    if marker in s then s[DataKey(doc, DeletedKey, COMPOSITE_NAMESPACE) := s[marker]] - {marker} else s
  }

  lemma MovedAt(s: Data, doc: DocId, fields: set<string>, k: StoreKey)
    requires forall g :: g in fields <==> DataKey(doc, ValueKey, g) in MarkerMoved(s, doc)
    ensures k in MoveFields(MarkerMoved(s, doc), doc, fields) <==> k in Relocated(s, doc)
    ensures k in Relocated(s, doc) ==> MoveFields(MarkerMoved(s, doc), doc, fields)[k] == Relocated(s, doc)[k]
  {
    RelocatedAt(s, doc, k);
    assert k.DataKey? ==> k == DataKey(k.doc, k.inst, k.field);
  }

  /** Moving the marker of an empty document and then every field relocates the document. */
  lemma MoveAllIsRelocated(s: Data, doc: DocId, fields: set<string>)
    requires forall g :: g in fields <==> DataKey(doc, ValueKey, g) in MarkerMoved(s, doc)
    ensures MoveFields(MarkerMoved(s, doc), doc, fields) == Relocated(s, doc)
  {
    forall k
      ensures k in MoveFields(MarkerMoved(s, doc), doc, fields) <==> k in Relocated(s, doc)
      ensures k in Relocated(s, doc) ==> MoveFields(MarkerMoved(s, doc), doc, fields)[k] == Relocated(s, doc)[k]
    {
      MovedAt(s, doc, fields, k);
    }
  }

  class CompositeDAG {
    const store: DataStore
    const doc: DocId

    constructor (store: DataStore, doc: DocId)
      ensures this.store == store && this.doc == doc
    {
      this.store := store;
      this.doc := doc;
    }

    method Merge(delta: Delta)
      modifies store
      ensures store.data == MergeComposite(old(store.data), doc,
                                           if delta.CompositeDelta? then delta.status else Active)
    {
      var marker := PrimaryKey(doc);
      if delta.CompositeDelta? && delta.status == Deleted {
        store.data := store.data[marker := Blob([DELETED_OBJECT_MARKER])];
        DeleteWithPrefix();
        return;
      }
      if marker !in store.data {
        store.data := store.data[marker := Blob([OBJECT_MARKER])];
      }
    }

    method DeleteWithPrefix()
      modifies store
      ensures store.data == Relocated(old(store.data), doc)
    {
      ghost var s := store.data;
      var key := DataKey(doc, ValueKey, NO_FIELD);
      if key in store.data {
        store.data := store.data[DataKey(doc, DeletedKey, COMPOSITE_NAMESPACE) := store.data[key]];
        store.data := store.data - {key};
      }
      ghost var s1 := MarkerMoved(s, doc);
      assert store.data == s1;
      var entries := set k | k in store.data && IsValueKey(k, doc);
      ghost var all := set k | k in entries :: k.field;
      ghost var done: set<string> := {};
      assert store.data == MoveFields(s1, doc, done);
      while entries != {}
        invariant done <= all
        invariant forall g :: g in all <==> DataKey(doc, ValueKey, g) in s1
        invariant entries == set g | g in all - done :: DataKey(doc, ValueKey, g)
        invariant store.data == MoveFields(s1, doc, done)
        decreases all - done
      {
        var e :| e in entries;
        MoveOneMore(s1, doc, done, e.field);
        store.data := store.data[DataKey(doc, DeletedKey, e.field) := store.data[e]];
        store.data := store.data - {e};
        entries, done := entries - {e}, done + {e.field};
      }
      assert forall g :: g in all - done ==> DataKey(doc, ValueKey, g) in entries;
      assert done == all;
      MoveAllIsRelocated(s, doc, all);
    }
  }
}
