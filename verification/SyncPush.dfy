/**
 Pushes whose sessions always leave the right data. Reservations give every new block one job at a time, so if no two
 new blocks below the pushed one conflict, no schedule lets conflicting merges overlap.
 */
module SyncPush {
  import opened Crdt
  import opened Clock
  import opened Merging
  import opened Replicas
  import opened Sync
  import opened SyncSafety
  import opened SyncData
  import opened SyncHeads

  /** The blocks that a push adds to a store, and those of them that jobs work on. */
  ghost function New(root: Node, b0: set<Node>): set<Node> { Closure(root) - b0 }

  ghost function Brought(root: Node, b0: set<Node>): set<Node> { New(root, b0) - {root} }

  /** The merges of two blocks conflict: they are of one field, or one of them deletes the document. */
  predicate Clashes(a: Node, b: Node) {
    || (a.delta.RegisterDelta? && b.delta.RegisterDelta? && a.delta.key == b.delta.key)
    || (a.delta.CompositeDelta? && a.delta.status == Deleted)
    || (b.delta.CompositeDelta? && b.delta.status == Deleted)
  }

  /** No two different blocks among those that the push brings conflict. */
  ghost predicate Apart(root: Node, b0: set<Node>) {
    forall a, b :: a in Brought(root, b0) && b in Brought(root, b0) && a != b ==> !Clashes(a, b)
  }

  // ---------- One job at a time for each block ----------

  /** What a job owns is reserved, by that job alone. */
  ghost predicate OwnersRight(s: Session) {
    && (forall u, c :: 0 <= u < |s.tasks| && Owns(u, s.tasks[u], c) ==> c in s.reserved)
    && (forall u, v, c :: 0 <= u < |s.tasks| && 0 <= v < |s.tasks| && Owns(u, s.tasks[u], c) && Owns(v, s.tasks[v], c)
          ==> u == v)
  }

  /** The acting job owns what it owned, or something that was free and is now reserved. */
  lemma ActingOwns(doc: DocId, s: Session, t: nat, c: Node)
    requires CanAct(s, t) && Owns(t, StepTask(doc, s, t).tasks[t], c)
    ensures Owns(t, s.tasks[t], c) || (c !in s.reserved && c in StepTask(doc, s, t).reserved)
  {
    ActionIsLocal(doc, s, t);
  }

  /** A job that is started owns what the one that starts it owned, which then owns nothing. */
  lemma StartedOwns(doc: DocId, s: Session, t: nat, c: Node)
    requires CanAct(s, t) && s.tasks[t].phase.Fetching? && Owns(|s.tasks|, StepTask(doc, s, t).tasks[|s.tasks|], c)
    ensures Owns(t, s.tasks[t], c) && StepTask(doc, s, t).tasks[t].phase.Spawning?
    ensures StepTask(doc, s, t).reserved == s.reserved
  {
  }

  /** A block is free again once its own job has scanned it. */
  lemma FreedByOwner(doc: DocId, s: Session, t: nat, c: Node)
    requires CanAct(s, t) && c in s.reserved && c !in StepTask(doc, s, t).reserved
    ensures Owns(t, s.tasks[t], c) && !Owns(t, StepTask(doc, s, t).tasks[t], c) && !s.tasks[t].phase.Fetching?
  {
    ActionIsLocal(doc, s, t);
  }

  /** Who owns a block after an action owned it before, or handed it over, or has just reserved it. */
  ghost predicate HasOwned(doc: DocId, s: Session, t: nat, u: nat, c: Node)
    requires CanAct(s, t)
  {
    if u == t then Owns(t, s.tasks[t], c) || c !in s.reserved
    else if u == |s.tasks| then Owns(t, s.tasks[t], c) && !Owns(t, StepTask(doc, s, t).tasks[t], c)
    else u < |s.tasks| && Owns(u, s.tasks[u], c)
  }

  lemma OwnerBefore(doc: DocId, s: Session, t: nat, u: nat, c: Node)
    requires CanAct(s, t) && u < |StepTask(doc, s, t).tasks| && Owns(u, StepTask(doc, s, t).tasks[u], c)
    ensures HasOwned(doc, s, t, u, c)
  {
    ActionIsLocal(doc, s, t);
    if u == t {
      ActingOwns(doc, s, t, c);
    } else if u == |s.tasks| {
      StartedOwns(doc, s, t, c);
    } else {
      assert StepTask(doc, s, t).tasks[u] == s.tasks[u];
    }
  }

  lemma OwnedStaysReserved(doc: DocId, s: Session, t: nat, u: nat, c: Node)
    requires OwnersRight(s) && CanAct(s, t)
    requires u < |StepTask(doc, s, t).tasks| && Owns(u, StepTask(doc, s, t).tasks[u], c)
    ensures c in StepTask(doc, s, t).reserved
  {
    ActionIsLocal(doc, s, t);
    OwnerBefore(doc, s, t, u, c);
    if c !in s.reserved {
      assert u == t;
      ActingOwns(doc, s, t, c);
    } else if c !in StepTask(doc, s, t).reserved {
      FreedByOwner(doc, s, t, c);
    }
  }

  lemma OwnersStayAlone(doc: DocId, s: Session, t: nat, u: nat, v: nat, c: Node)
    requires OwnersRight(s) && CanAct(s, t)
    requires u < |StepTask(doc, s, t).tasks| && Owns(u, StepTask(doc, s, t).tasks[u], c)
    requires v < |StepTask(doc, s, t).tasks| && Owns(v, StepTask(doc, s, t).tasks[v], c)
    ensures u == v
  {
    ActionIsLocal(doc, s, t);
    OwnerBefore(doc, s, t, u, c);
    OwnerBefore(doc, s, t, v, c);
  }

  lemma OwnersKept(doc: DocId, s: Session, t: nat)
    requires OwnersRight(s) && CanAct(s, t)
    ensures OwnersRight(StepTask(doc, s, t))
  {
    var s' := StepTask(doc, s, t);
    forall u, c | 0 <= u < |s'.tasks| && Owns(u, s'.tasks[u], c) ensures c in s'.reserved {
      OwnedStaysReserved(doc, s, t, u, c);
    }
    forall u, v, c | 0 <= u < |s'.tasks| && 0 <= v < |s'.tasks| && Owns(u, s'.tasks[u], c) && Owns(v, s'.tasks[v], c)
      ensures u == v
    {
      OwnersStayAlone(doc, s, t, u, v, c);
    }
  }

  // ---------- Only new blocks ----------

  /** The push starts alone, and every job and child is a block that the push brings. */
  ghost predicate BringsNew(root: Node, b0: set<Node>, s: Session) {
    && |s.tasks| > 0
    && (s.tasks[0].phase.Waiting? || s.tasks[0].phase.Merging? || s.tasks[0].phase.Scanning? ==> |s.tasks| == 1)
    && (forall u :: 0 < u < |s.tasks| ==> s.tasks[u].node !in b0)
    && (forall u, c :: 0 <= u < |s.tasks| && c in Kids(s.tasks[u].phase) ==> c !in b0)
  }

  lemma KidsAreNew(doc: DocId, b0: set<Node>, s: Session, t: nat, c: Node)
    requires CanAct(s, t) && b0 <= s.blocks && c in Kids(StepTask(doc, s, t).tasks[t].phase)
    ensures c in Kids(s.tasks[t].phase) || c !in b0
  {
    var task := s.tasks[t];
    if task.phase.Scanning? && (task.phase.i < |task.node.links| || task.phase.look == BecomeHead) {
      ScanFindsNew(doc, s, t, task.phase.i, task.phase.kids, task.phase.look, c);
    } else {
      OtherKids(doc, s, t, c);
    }
  }

  lemma ScanFindsNew(doc: DocId, s: Session, t: nat, i: nat, kids: seq<Node>, look: Look, c: Node)
    requires t < |s.tasks| && (i < |s.tasks[t].node.links| || look == BecomeHead)
    requires c in Kids(Scan(doc, s, t, i, kids, look).tasks[t].phase)
    ensures c in kids || c !in s.blocks
  {
  }

  lemma PushStaysAlone(doc: DocId, s: Session, t: nat)
    requires CanAct(s, t)
    requires s.tasks[0].phase.Waiting? || s.tasks[0].phase.Merging? || s.tasks[0].phase.Scanning? ==> |s.tasks| == 1
    ensures
      var s' := StepTask(doc, s, t);
      |s'.tasks| > 0
      && (s'.tasks[0].phase.Waiting? || s'.tasks[0].phase.Merging? || s'.tasks[0].phase.Scanning? ==> |s'.tasks| == 1)
  {
    ActionIsLocal(doc, s, t);
    if t == 0 && (s.tasks[0].phase.Spawning? || s.tasks[0].phase.Fetching?) {
      assert !StepTask(doc, s, t).tasks[0].phase.Scanning?;
    }
  }

  lemma BringsNewKept(doc: DocId, root: Node, b0: set<Node>, s: Session, t: nat)
    requires BringsNew(root, b0, s) && CanAct(s, t) && b0 <= s.blocks
    ensures BringsNew(root, b0, StepTask(doc, s, t))
  {
    var s' := StepTask(doc, s, t);
    ActionIsLocal(doc, s, t);
    PushStaysAlone(doc, s, t);
    if s.tasks[t].phase.Fetching? {
      assert s.tasks[t].phase.c in Kids(s.tasks[t].phase);
    }
    forall u, c | 0 <= u < |s'.tasks| && c in Kids(s'.tasks[u].phase) ensures c !in b0 {
      if u == t {
        KidsAreNew(doc, b0, s, t, c);
      } else if u < |s.tasks| {
        assert s'.tasks[u] == s.tasks[u];
      }
    }
    forall u | 0 < u < |s'.tasks| ensures s'.tasks[u].node !in b0 {
      if u < |s.tasks| {
        assert s'.tasks[u].node == s.tasks[u].node;
      }
    }
  }

  // ---------- No conflicting merges overlap ----------

  ghost predicate PushInv(root: Node, b0: set<Node>, s: Session) {
    Inv(root, b0, s) && OwnersRight(s) && BringsNew(root, b0, s) && OthersBelow(root, s)
  }

  lemma TwoMergesApart(doc: DocId, root: Node, b0: set<Node>, s: Session, i: nat, k: nat)
    requires AllWellNamed(doc, root) && PushInv(root, b0, s) && Apart(root, b0)
    requires i < |s.tasks| && k < |s.tasks| && i != k && s.tasks[i].phase.Merging? && s.tasks[k].phase.Merging?
    ensures !Conflict(JobOf(s.tasks[i]), JobOf(s.tasks[k]))
  {
    var a, b := s.tasks[i], s.tasks[k];
    assert TaskRight(root, s, a) && TaskRight(root, s, b);
    assert WellNamed(doc, a.node) && WellNamed(doc, b.node);
    assert Owns(i, a, a.node) && Owns(k, b, b.node);
    assert a.node in Brought(root, b0) && b.node in Brought(root, b0) && a.node != b.node;
    assert !Clashes(a.node, b.node);
  }

  lemma NoneClash(doc: DocId, root: Node, b0: set<Node>, s: Session)
    requires AllWellNamed(doc, root) && PushInv(root, b0, s) && Apart(root, b0)
    ensures NoClash(Merges(s.tasks))
  {
    var js := Merges(s.tasks);
    forall i, k | 0 <= i < |js| && 0 <= k < |js| && i != k && Open(js[i]) && Open(js[k])
      ensures !Conflict(js[i], js[k])
    {
      TwoMergesApart(doc, root, b0, s, i, k);
    }
  }

  lemma PushInvKept(doc: DocId, root: Node, b0: set<Node>, s: Session, t: nat)
    requires AllWellNamed(doc, root) && PushInv(root, b0, s) && CanAct(s, t)
    ensures PushInv(root, b0, StepTask(doc, s, t))
  {
    assert TaskRight(root, s, s.tasks[t]);
    ActionKeepsInv(doc, root, b0, s, t);
    OwnersKept(doc, s, t);
    BringsNewKept(doc, root, b0, s, t);
    StaysBelow(doc, root, s, t);
  }

  /** Every schedule of a push that brings no conflicting blocks keeps conflicting merges from overlapping. */
  lemma {:induction false} ApartIsIsolated(doc: DocId, root: Node, b0: set<Node>, s: Session, schedule: seq<nat>)
    requires AllWellNamed(doc, root) && PushInv(root, b0, s) && Apart(root, b0) && IsSchedule(doc, s, schedule)
    ensures IsIsolated(doc, s, schedule)
    decreases |schedule|
  {
    NoneClash(doc, root, b0, s);
    if schedule != [] {
      PushInvKept(doc, root, b0, s, schedule[0]);
      ApartIsIsolated(doc, root, b0, StepTask(doc, s, schedule[0]), schedule[1..]);
    }
  }

  lemma StartHasPushInv(doc: DocId, root: Node, s0: Session)
    requires IsStart(doc, root, s0)
    ensures PushInv(root, s0.blocks, s0)
  {
    StartHasInv(doc, root, s0);
  }

  // ---------- The main results ----------

  /**
   A push that brings no two conflicting blocks besides the pushed one leaves, in every interleaving of its jobs, what
   all blocks together stand for.
   */
  lemma ApartPushIsExact(doc: DocId, root: Node, s0: Session, schedule: seq<nat>)
    requires IsStart(doc, root, s0) && Apart(root, s0.blocks)
    requires IsSchedule(doc, s0, schedule) && IsComplete(RunSession(doc, s0, schedule))
    ensures Represents(RunSession(doc, s0, schedule).data, Deltas(s0.blocks + Closure(root)))
  {
    StartHasPushInv(doc, root, s0);
    ApartIsIsolated(doc, root, s0.blocks, s0, schedule);
    IsolatedSyncIsExact(doc, root, s0, schedule);
  }

  /** So all its completed interleavings leave the same data. */
  lemma ApartPushIsConfluent(doc: DocId, root: Node, s0: Session, a: seq<nat>, b: seq<nat>)
    requires IsStart(doc, root, s0) && Apart(root, s0.blocks) && IsSchedule(doc, s0, a) && IsSchedule(doc, s0, b)
    requires IsComplete(RunSession(doc, s0, a)) && IsComplete(RunSession(doc, s0, b))
    ensures RunSession(doc, s0, a).data == RunSession(doc, s0, b).data
  {
    ApartPushIsExact(doc, root, s0, a);
    ApartPushIsExact(doc, root, s0, b);
    RepresentsUnique(RunSession(doc, s0, a).data, RunSession(doc, s0, b).data, Deltas(s0.blocks + Closure(root)));
  }
}
