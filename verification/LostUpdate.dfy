/**
 A sync session that loses a write: two jobs merge into one register at the same time, and the older write ends up in
 the store although every block has been stored and merged.
 */
module LostUpdate {
  import opened Crdt
  import opened Clock
  import opened Merging
  import opened Replicas
  import opened Sync
  import opened SyncSafety
  import opened SyncHeads

  const NAME := "1"

  function Field(doc: DocId): FieldKey { FieldKey(doc, NAME) }

  /** Two commits of one field: the second one is pushed to a peer that has neither. */
  function OldField(doc: DocId): Node { Node(RegisterDelta(Field(doc), 1, [2]), []) }

  function OldCommit(doc: DocId): Node { Node(CompositeDelta(doc, 1, Active), [Link(NAME, OldField(doc))]) }

  function NewField(doc: DocId): Node { Node(RegisterDelta(Field(doc), 2, [3]), [Link(HEAD, OldField(doc))]) }

  function NewCommit(doc: DocId): Node {
    Node(CompositeDelta(doc, 2, Active), [Link(HEAD, OldCommit(doc)), Link(NAME, NewField(doc))])
  }

  function Start(doc: DocId): Session {
    Session({}, {}, map[], map[], {NewCommit(doc)}, [Task(NewCommit(doc), NO_FIELD, Waiting)], 0)
  }

  ghost predicate Reaches(doc: DocId, s: Session, s': Session) {
    exists schedule :: IsSchedule(doc, s, schedule) && RunSession(doc, s, schedule) == s'
  }

  lemma {:induction false} RunThen(doc: DocId, s: Session, schedule: seq<nat>, t: nat)
    requires IsSchedule(doc, s, schedule) && CanAct(RunSession(doc, s, schedule), t)
    ensures IsSchedule(doc, s, schedule + [t])
    ensures RunSession(doc, s, schedule + [t]) == StepTask(doc, RunSession(doc, s, schedule), t)
    decreases |schedule|
  {
    if schedule == [] {
      assert [t][1..] == [];
    } else {
      RunThen(doc, StepTask(doc, s, schedule[0]), schedule[1..], t);
      assert (schedule + [t])[1..] == schedule[1..] + [t];
    }
  }

  lemma Act(doc: DocId, s: Session, s': Session, t: nat) returns (s'': Session)
    requires Reaches(doc, s, s') && CanAct(s', t)
    ensures s'' == StepTask(doc, s', t) && Reaches(doc, s, s'')
  {
    var schedule :| IsSchedule(doc, s, schedule) && RunSession(doc, s, schedule) == s';
    RunThen(doc, s, schedule, t);
    s'' := StepTask(doc, s', t);
  }

  // ---------- Stretches of one job ----------

  lemma Mark(doc: DocId, s0: Session, s: Session, t: nat) returns (s': Session)
    requires Reaches(doc, s0, s) && t < |s.tasks| && s.tasks[t].phase == Merging(HasMarker)
    requires s.tasks[t].field == NO_FIELD && !IsDelete(NO_FIELD, s.tasks[t].node.delta)
    ensures Reaches(doc, s0, s')
    ensures s' == Continue(s, t, Merging(Ended)).(data := MergeComposite(s.data, doc, Active))
  {
    s' := Act(doc, s0, s, t);
    if PrimaryKey(doc) !in s.data {
      assert s'.tasks[t].phase == Merging(PutMarker);
      s' := Act(doc, s0, s', t);
    }
  }

  lemma Composite(doc: DocId, s0: Session, s: Session, t: nat) returns (s': Session)
    requires Reaches(doc, s0, s) && t < |s.tasks| && s.tasks[t].phase == Waiting
    requires s.tasks[t].field == NO_FIELD && !IsDelete(NO_FIELD, s.tasks[t].node.delta)
    ensures Reaches(doc, s0, s')
    ensures
      var n := s.tasks[t].node;
      s' == Continue(s, t, AfterMerge(n)).(
              blocks := s.blocks + {n}, merged := s.merged + {n},
              data := MergeComposite(s.data, doc, Active))
  {
    s' := Act(doc, s0, s, t);
    s' := Mark(doc, s0, s', t);
    s' := Act(doc, s0, s', t);
  }

  /** Up to the point where the job is about to put its value. */
  lemma Prepare(doc: DocId, s0: Session, s: Session, t: nat) returns (s': Session)
    requires Reaches(doc, s0, s) && t < |s.tasks| && s.tasks[t].phase == Waiting && s.tasks[t].node.delta.RegisterDelta?
    requires s.tasks[t].field != NO_FIELD
    requires
      var f := FieldKey(doc, s.tasks[t].field);
      Decodable(s.data, f) && Current(s.data, f).priority < s.tasks[t].node.delta.priority
    ensures Reaches(doc, s0, s')
    ensures s' == Continue(s, t, Merging(PutValue(SlotOf(s.data, FieldKey(doc, s.tasks[t].field))))).(
                    blocks := s.blocks + {s.tasks[t].node})
  {
    s' := Act(doc, s0, s, t);
    s' := Act(doc, s0, s', t);
    s' := Act(doc, s0, s', t);
  }

  lemma Write(doc: DocId, s0: Session, s: Session, t: nat) returns (s': Session)
    requires Reaches(doc, s0, s) && t < |s.tasks| && s.tasks[t].phase.Merging? && s.tasks[t].phase.at.PutValue?
    requires s.tasks[t].field != NO_FIELD && s.tasks[t].node.delta.RegisterDelta?
    ensures Reaches(doc, s0, s')
    ensures
      var n, key := s.tasks[t].node, PriorityKeyOf(FieldKey(doc, s.tasks[t].field));
      s' == Continue(s, t, AfterMerge(n)).(
              merged := s.merged + {n},
              data := s.data[s.tasks[t].phase.at.slot := Blob([LWW_REGISTER] + n.delta.data)][
                             key := Number(n.delta.priority)])
  {
    s' := Act(doc, s0, s, t);
    assert s'.tasks[t].phase == Merging(PutPriority);
    s' := Act(doc, s0, s', t);
    assert s'.tasks[t].phase == Merging(Ended);
    s' := Act(doc, s0, s', t);
  }

  lemma Child(doc: DocId, s0: Session, s: Session, t: nat, i: nat, kids: seq<Node>) returns (s': Session)
    requires Reaches(doc, s0, s) && t < |s.tasks| && s.tasks[t].phase == Scanning(i, kids, IsHead)
    requires i < |s.tasks[t].node.links| && s.tasks[t].node.links[i].cid !in s.blocks
    requires HeadKey(SpaceOf(doc, s.tasks[t].field), s.tasks[t].node.links[i].cid) !in s.heads
    ensures Reaches(doc, s0, s')
    ensures s' == Continue(s, t, Scanning(i + 1, kids + [s.tasks[t].node.links[i].cid], IsHead))
  {
    s' := Act(doc, s0, s, t);
    s' := Act(doc, s0, s', t);
  }

  lemma Spawn(doc: DocId, s0: Session, s: Session, t: nat, kids: seq<Node>) returns (s': Session)
    requires Reaches(doc, s0, s) && t < |s.tasks| && s.tasks[t].phase == Spawning(kids)
    requires kids != [] && kids[0] !in s.reserved
    ensures Reaches(doc, s0, s')
    ensures
      var task := s.tasks[t];
      s' == s.(reserved := s.reserved + {kids[0]}, counter := s.counter + 1,
               tasks := s.tasks[t := task.(phase := Spawning(kids[1..]))]
                        + [Task(kids[0], ChildField(task.node, task.field, kids[0]), Waiting)])
  {
    s' := Act(doc, s0, s, t);
    s' := Act(doc, s0, s', t);
  }

  // ---------- The schedule ----------

  function Marked(doc: DocId): Data { map[PrimaryKey(doc) := Blob([OBJECT_MARKER])] }

  /** The push has stored and merged its block, and started a job for each of its two links. */
  function Pushed(doc: DocId): Session {
    var nc, oc, nf := NewCommit(doc), OldCommit(doc), NewField(doc);
    Session({nc}, {nc}, Marked(doc), map[], {nc, oc, nf},
            [Task(nc, NO_FIELD, Finished), Task(oc, NO_FIELD, Waiting), Task(nf, NAME, Waiting)], 2)
  }

  lemma Push(doc: DocId)
    ensures Reaches(doc, Start(doc), Pushed(doc))
  {
    var nc, oc, nf, s0 := NewCommit(doc), OldCommit(doc), NewField(doc), Start(doc);
    assert IsSchedule(doc, s0, []) && RunSession(doc, s0, []) == s0;
    var s := Composite(doc, s0, s0, 0);
    assert Link(HEAD, oc) in nc.links;
    assert s == InPush(doc, Scanning(0, [], IsHead));
    s := Child(doc, s0, s, 0, 0, []);
    assert [] + [oc] == [oc] && [oc] + [nf] == [oc, nf];
    s := Child(doc, s0, s, 0, 1, [oc]);
    assert s == InPush(doc, Scanning(2, [oc, nf], IsHead));
    s := Act(doc, s0, s, 0);
    assert s == InPush(doc, Spawning([oc, nf]));
    PushSpawns(doc);
  }

  /** The push has merged its block, and has no job yet. */
  function InPush(doc: DocId, phase: Phase): Session {
    var nc := NewCommit(doc);
    Session({nc}, {nc}, Marked(doc), map[], {nc}, [Task(nc, NO_FIELD, phase)], 0)
  }

  lemma PushSpawns(doc: DocId)
    requires Reaches(doc, Start(doc), InPush(doc, Spawning([OldCommit(doc), NewField(doc)])))
    ensures Reaches(doc, Start(doc), Pushed(doc))
  {
    var nc, oc, nf, s0 := NewCommit(doc), OldCommit(doc), NewField(doc), Start(doc);
    FieldNames(doc);
    var s := InPush(doc, Spawning([oc, nf]));
    var s' := Spawn(doc, s0, s, 0, [oc, nf]);
    s' := Spawn(doc, s0, s', 0, [nf]);
    s' := Act(doc, s0, s', 0);
    assert s' == Pushed(doc);
  }

  /** The job of the old commit, after its merge. */
  function InOldCommit(doc: DocId, phase: Phase, heads: Heads): Session {
    var nc, oc, nf := NewCommit(doc), OldCommit(doc), NewField(doc);
    Session({nc, oc}, {nc, oc}, Marked(doc), heads, {nc, oc, nf} - (if phase.Spawning? then {oc} else {}),
            [Task(nc, NO_FIELD, Finished), Task(oc, NO_FIELD, phase), Task(nf, NAME, Waiting)], 2)
  }

  function Head(doc: DocId): Heads { map[HeadKey(SpaceOf(doc, NO_FIELD), OldCommit(doc)) := 1] }

  lemma OldCommitScans(doc: DocId)
    ensures Reaches(doc, Start(doc), InOldCommit(doc, Spawning([OldField(doc)]), Head(doc)))
  {
    var oc, of, s0 := OldCommit(doc), OldField(doc), Start(doc);
    Push(doc);
    var s := Composite(doc, s0, Pushed(doc), 1);
    assert s == InOldCommit(doc, Scanning(0, [], BecomeHead), map[]);
    s := Act(doc, s0, s, 1);
    assert s == InOldCommit(doc, Scanning(0, [], IsHead), Head(doc));
    s := Child(doc, s0, s, 1, 0, []);
    assert [] + [of] == [of];
    s := Act(doc, s0, s, 1);
    assert s == InOldCommit(doc, Spawning([of]), Head(doc));
  }

  /** Only the two jobs of the field are left, and neither has started. */
  function TwoLeft(doc: DocId): Session {
    var nc, oc, nf, of := NewCommit(doc), OldCommit(doc), NewField(doc), OldField(doc);
    Session({nc, oc}, {nc, oc}, Marked(doc), Head(doc), {nc, nf, of},
            [Task(nc, NO_FIELD, Finished), Task(oc, NO_FIELD, Finished), Task(nf, NAME, Waiting),
             Task(of, NAME, Waiting)], 2)
  }

  lemma OldCommitSpawns(doc: DocId)
    ensures Reaches(doc, Start(doc), TwoLeft(doc))
  {
    var of, s0 := OldField(doc), Start(doc);
    FieldNames(doc);
    OldCommitScans(doc);
    var s := Spawn(doc, s0, InOldCommit(doc, Spawning([of]), Head(doc)), 1, [of]);
    s := Act(doc, s0, s, 1);
    assert s == TwoLeft(doc);
  }

  /** The two jobs of the field with all blocks stored, at these phases. */
  function InFields(doc: DocId, data: Data, heads: Heads, merged: set<Node>, newer: Phase, older: Phase): Session {
    var nc, oc, nf, of := NewCommit(doc), OldCommit(doc), NewField(doc), OldField(doc);
    Session({nc, oc, nf, of}, {nc, oc} + merged, data, heads, {nc, nf, of},
            [Task(nc, NO_FIELD, Finished), Task(oc, NO_FIELD, Finished), Task(nf, NAME, newer), Task(of, NAME, older)],
            2)
  }

  function Slot(doc: DocId): StoreKey { DataKey(doc, ValueKey, NAME) }

  /** The marker, and a register that holds the write of this node. */
  function Holds(doc: DocId, n: Node): Data
    requires n.delta.RegisterDelta?
  {
    Marked(doc)[Slot(doc) := Blob([LWW_REGISTER] + n.delta.data)][PriorityKeyOf(Field(doc)) := Number(n.delta.priority)]
  }

  lemma BothPrepare(doc: DocId)
    ensures
      var ready := Merging(PutValue(Slot(doc)));
      Reaches(doc, Start(doc), InFields(doc, Marked(doc), Head(doc), {}, ready, ready))
  {
    var s0 := Start(doc);
    OldCommitSpawns(doc);
    var s := Prepare(doc, s0, TwoLeft(doc), 2);
    s := Prepare(doc, s0, s, 3);
    var ready := Merging(PutValue(Slot(doc)));
    assert s == InFields(doc, Marked(doc), Head(doc), {}, ready, ready);
  }

  /** Both jobs have read an absent priority; then the newer write is stored, and the older one over it. */
  lemma BothWrite(doc: DocId)
    ensures Reaches(doc, Start(doc), InFields(doc, Holds(doc, OldField(doc)), Head(doc), {NewField(doc), OldField(doc)},
                                              AfterMerge(NewField(doc)), AfterMerge(OldField(doc))))
  {
    var nf, of, s0 := NewField(doc), OldField(doc), Start(doc);
    BothPrepare(doc);
    var ready := Merging(PutValue(Slot(doc)));
    var s := Write(doc, s0, InFields(doc, Marked(doc), Head(doc), {}, ready, ready), 2);
    assert s == InFields(doc, Holds(doc, nf), Head(doc), {nf}, AfterMerge(nf), ready);
    s := Write(doc, s0, s, 3);
    assert s == InFields(doc, Holds(doc, of), Head(doc), {nf, of}, AfterMerge(nf), AfterMerge(of));
  }

  function BothHeads(doc: DocId): Heads { Head(doc)[HeadKey(SpaceOf(doc, NAME), OldField(doc)) := 1] }

  /** The older job ends, and its block is a head. */
  function OlderDone(doc: DocId): Session {
    InFields(doc, Holds(doc, OldField(doc)), BothHeads(doc), {NewField(doc), OldField(doc)}, Scanning(0, [], IsHead),
             Finished).(
      counter := 1, reserved := {NewCommit(doc), NewField(doc)})
  }

  lemma OlderEnds(doc: DocId)
    ensures Reaches(doc, Start(doc), OlderDone(doc))
  {
    var nf, of, s0 := NewField(doc), OldField(doc), Start(doc);
    BothWrite(doc);
    assert AfterMerge(of) == Scanning(0, [], BecomeHead);
    assert Link(HEAD, of) in nf.links && AfterMerge(nf) == Scanning(0, [], IsHead);
    var s := InFields(doc, Holds(doc, of), Head(doc), {nf, of}, AfterMerge(nf), AfterMerge(of));
    s := Act(doc, s0, s, 3);
    assert s.heads == BothHeads(doc) && s.tasks[3].phase == Scanning(0, [], IsHead);
    s := Act(doc, s0, s, 3);
    assert s == OlderDone(doc);
  }

  /** The jobs end; nothing more is written to the register. */
  lemma BothEnd(doc: DocId) returns (s: Session)
    ensures Reaches(doc, Start(doc), s) && IsComplete(s) && s.data == Holds(doc, OldField(doc))
  {
    var s0 := Start(doc);
    OlderEnds(doc);
    s := Act(doc, s0, OlderDone(doc), 2);
    assert s.tasks[2].phase == Scanning(0, [], DropHead);
    s := Act(doc, s0, s, 2);
    s := Act(doc, s0, s, 2);
    assert s.tasks[2].phase == Scanning(1, [], IsHead);
    s := Act(doc, s0, s, 2);
  }

  lemma FieldNames(doc: DocId)
    ensures ChildField(NewCommit(doc), NO_FIELD, OldCommit(doc)) == NO_FIELD
    ensures ChildField(NewCommit(doc), NO_FIELD, NewField(doc)) == NAME
    ensures ChildField(OldCommit(doc), NO_FIELD, OldField(doc)) == NAME
  {
    var nc, oc := NewCommit(doc).links, OldCommit(doc).links;
    assert nc[..1] == [Link(HEAD, OldCommit(doc))] && nc[..1][..0] == [] && oc[..0] == [];
    assert NameOf(nc[..1], OldCommit(doc)) == NO_FIELD;
  }

  /** A block with one link, to a block that has none. */
  lemma ClosureOfOne(n: Node, l: Link)
    requires n.links == [l] && l.cid.links == []
    ensures Closure(n) == {n, l.cid}
  {
    assert Closure(l.cid) == {l.cid};
    assert l in n.links;
  }

  lemma {:induction false} BlocksOfPush(doc: DocId)
    ensures Closure(NewCommit(doc)) == {NewCommit(doc), OldCommit(doc), NewField(doc), OldField(doc)}
  {
    var nc, oc, nf, of := NewCommit(doc), OldCommit(doc), NewField(doc), OldField(doc);
    ClosureOfOne(oc, Link(NAME, of));
    ClosureOfOne(nf, Link(HEAD, of));
    assert Link(HEAD, oc) == nc.links[0] && Link(NAME, nf) == nc.links[1];
    assert Closure(nc) == {nc, oc, nf, of};
  }

  lemma FieldsAreWellNamed(doc: DocId)
    ensures WellNamed(doc, OldField(doc)) && WellNamed(doc, NewField(doc))
  {
  }

  lemma CommitsAreWellNamed(doc: DocId)
    ensures WellNamed(doc, OldCommit(doc)) && WellNamed(doc, NewCommit(doc))
  {
  }

  lemma PushIsWellNamed(doc: DocId)
    ensures forall m :: m in Closure(NewCommit(doc)) ==> WellNamed(doc, m)
  {
    BlocksOfPush(doc);
    FieldsAreWellNamed(doc);
    CommitsAreWellNamed(doc);
  }

  /**
   The overlap matters: from an empty peer, a schedule completes the session with every block stored and merged, and
   with a register that does not hold the newest write.
   */
  lemma OverlapLosesWrite(doc: DocId) returns (schedule: seq<nat>)
    ensures IsStart(doc, NewCommit(doc), Start(doc)) && IsSchedule(doc, Start(doc), schedule)
    ensures
      var s := RunSession(doc, Start(doc), schedule);
      && IsComplete(s) && s.merged == s.blocks == Closure(NewCommit(doc))
      && Decodable(s.data, Field(doc)) && Current(s.data, Field(doc)) == Crdt.Write(1, [2])
      && RegisterDelta(Field(doc), 2, [3]) in Deltas(s.blocks)
      && !Represents(s.data, Deltas(s.blocks))
  {
    StartsSession(doc);
    BlocksOfPush(doc);
    var s := BothEnd(doc);
    schedule :| IsSchedule(doc, Start(doc), schedule) && RunSession(doc, Start(doc), schedule) == s;
    SyncClosure(doc, NewCommit(doc), Start(doc), schedule);
    OlderIsWrong(doc, s.blocks);
  }

  /** The same session leaves a store whose heads are not its tips: the pushed block is a tip and no head. */
  lemma PushMissesHead(doc: DocId) returns (schedule: seq<nat>)
    ensures IsStart(doc, NewCommit(doc), Start(doc)) && IsSchedule(doc, Start(doc), schedule)
    ensures HeadsAreTips(Start(doc).heads, Start(doc).blocks)
    ensures
      var s := RunSession(doc, Start(doc), schedule);
      IsComplete(s) && !HeadsAreTips(s.heads, s.blocks)
  {
    schedule := OverlapLosesWrite(doc);
    TipsOnlyIfAttached(doc, NewCommit(doc), Start(doc), schedule);
    assert NewCommit(doc).links[0] in NewCommit(doc).links && NewCommit(doc).links[0].name == HEAD;
  }

  lemma StartsSession(doc: DocId)
    ensures IsStart(doc, NewCommit(doc), Start(doc))
  {
    PushIsWellNamed(doc);
    EmptyRepresentsNothing();
    assert Deltas({}) == {};
  }

  lemma OlderIsWrong(doc: DocId, blocks: set<Node>)
    requires NewField(doc) in blocks
    ensures
      var data := Holds(doc, OldField(doc));
      && Decodable(data, Field(doc)) && Current(data, Field(doc)) == Crdt.Write(1, [2])
      && RegisterDelta(Field(doc), 2, [3]) in Deltas(blocks) && !Represents(data, Deltas(blocks))
  {
    var data, d := Holds(doc, OldField(doc)), RegisterDelta(Field(doc), 2, [3]);
    assert NewField(doc).delta == d;
    assert Current(data, Field(doc)).data == [2];
    assert !RegisterRight(data, Deltas(blocks), Field(doc)) by {
      assert d in Deltas(blocks) && Beats(Crdt.Write(d.priority, d.data), Current(data, Field(doc)));
    }
  }
}
