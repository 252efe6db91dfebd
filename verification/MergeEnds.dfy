/** Every merge ends after a number of accesses that the values of the document bound. */
module MergeEnds {
  import opened Crdt
  import opened Merging

  /** How many accesses a merge has left at most, if the document has at most n values. */
  function Rank(at: Point, n: nat): nat {
    match at
    case ReadPriority => 5
    case ReadMarker(_) => 4
    case ReadValue(_) => 3
    case PutValue(_) => 2
    case PutPriority => 1
    case HasMarker => 2
    case PutMarker => 1
    case PutDeleted => 2 * n + 5
    case ReadEmpty => 2 * n + 4
    case MoveEmpty(_) => 2 * n + 3
    case DropEmpty => 2 * n + 2
    case QueryValues => 2 * n + 1
    case MoveValue(left) => 2 * |left|
    case DropValue(_, left) => 2 * |left| + 1
    case Ended => 0
  }

  // ---------- The values of the document ----------

  /** The fields whose values the store may hold, now or later. */
  ghost predicate ValuesWithin(data: Data, doc: DocId, fields: set<string>) {
    forall g :: DataKey(doc, ValueKey, g) in data ==> g in fields
  }

  ghost predicate PointWithin(doc: DocId, j: Job, fields: set<string>) {
    match j.at
    case ReadValue(slot) => slot == DataKey(doc, ValueKey, j.field) || slot == DataKey(doc, DeletedKey, j.field)
    case PutValue(slot) => slot == DataKey(doc, ValueKey, j.field) || slot == DataKey(doc, DeletedKey, j.field)
    case MoveValue(left) => left != map[] && left.Keys <= fields
    case DropValue(_, left) => left.Keys <= fields
    case _ => true
  }

  lemma {:induction false} SubsetSize(a: set<string>, b: set<string>)
    requires a <= b
    ensures |a| <= |b|
  {
    if x :| x in a {
      SubsetSize(a - {x}, b - {x});
    }
  }

  lemma AccessWithin(s: Data, doc: DocId, j: Job, fields: set<string>)
    requires OnTrack(j) && ValuesWithin(s, doc, fields) && PointWithin(doc, j, fields)
    requires j.delta.RegisterDelta? ==> j.field in fields
    ensures
      var (s', j') := Access(s, doc, j);
      OnTrack(j') && ValuesWithin(s', doc, fields) && PointWithin(doc, j', fields)
  {
    if j.at.QueryValues? {
      ValuesOfHas(s, doc);
    }
  }

  lemma MapMinus(m: map<string, Entry>, g: string)
    requires g in m
    ensures |m - {g}| == |m| - 1
  {
    assert (m - {g}).Keys == m.Keys - {g};
    assert |(m - {g}).Keys| == |m - {g}| && |m.Keys| == |m|;
  }

  lemma QueryIsWithin(s: Data, doc: DocId, fields: set<string>)
    requires ValuesWithin(s, doc, fields)
    ensures |ValuesOf(s, doc)| <= |fields|
  {
    ValuesOfHas(s, doc);
    SubsetSize(ValuesOf(s, doc).Keys, fields);
    assert |ValuesOf(s, doc)| == |ValuesOf(s, doc).Keys|;
  }

  lemma MoveLowersRank(s: Data, doc: DocId, left: map<string, Entry>, n: nat)
    requires left != map[]
    ensures Rank(AccessDelete(s, doc, MoveValue(left)).1, n) < Rank(MoveValue(left), n)
  {
    var at := AccessDelete(s, doc, MoveValue(left)).1;
    assert at.DropValue? && at.field in left && at.left == left - {at.field};
    MapMinus(left, at.field);
  }

  lemma OrEndRank(left: map<string, Entry>, n: nat)
    ensures Rank(OrEnd(left), n) == 2 * |left|
  {
  }

  lemma QueryLowersRank(s: Data, doc: DocId, n: nat)
    requires |ValuesOf(s, doc)| <= n
    ensures Rank(AccessDelete(s, doc, QueryValues).1, n) < Rank(QueryValues, n)
  {
    OrEndRank(ValuesOf(s, doc), n);
  }

  lemma DropLowersRank(s: Data, doc: DocId, g: string, left: map<string, Entry>, n: nat)
    ensures Rank(AccessDelete(s, doc, DropValue(g, left)).1, n) < Rank(DropValue(g, left), n)
  {
    OrEndRank(left, n);
  }

  /** The accesses of a delete before it moves the values of the fields. */
  lemma EmptyLowersRank(s: Data, doc: DocId, at: Point, n: nat)
    requires at.PutDeleted? || at.ReadEmpty? || at.MoveEmpty? || at.DropEmpty?
    ensures Rank(AccessDelete(s, doc, at).1, n) < Rank(at, n)
  {
  }

  lemma OtherLowersRank(s: Data, doc: DocId, j: Job, n: nat)
    requires OnTrack(j) && j.at != Ended && !IsDelete(j.field, j.delta)
    ensures Rank(Access(s, doc, j).1.at, n) < Rank(j.at, n)
  {
  }

  lemma AccessLowersRank(s: Data, doc: DocId, j: Job, fields: set<string>)
    requires OnTrack(j) && ValuesWithin(s, doc, fields) && PointWithin(doc, j, fields) && j.at != Ended
    ensures Rank(Access(s, doc, j).1.at, |fields|) < Rank(j.at, |fields|)
  {
    QueryIsWithin(s, doc, fields);
    if !IsDelete(j.field, j.delta) {
      OtherLowersRank(s, doc, j, |fields|);
    } else if j.at.MoveValue? {
      MoveLowersRank(s, doc, j.at.left, |fields|);
    } else if j.at.QueryValues? {
      QueryLowersRank(s, doc, |fields|);
    } else if j.at.DropValue? {
      DropLowersRank(s, doc, j.at.field, j.at.left, |fields|);
    } else {
      EmptyLowersRank(s, doc, j.at, |fields|);
    }
  }
}
