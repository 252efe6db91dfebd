/**
 The heads after a sync session. The push scans the links of its own block before any job exists, so whether the
 pushed block becomes a head depends only on the store the session started from.
 */
module SyncHeads {
  import opened Crdt
  import opened Clock
  import opened Sync
  import opened SyncSafety

  // ---------- Links lead down ----------

  lemma {:induction false} ClosureIsSmaller(n: Node, m: Node)
    requires m in Closure(n) && m != n
    ensures m < n
  {
    var l :| l in n.links && m in Closure(l.cid);
    LinkIsSmaller(n, l);
    if m != l.cid {
      ClosureIsSmaller(l.cid, m);
    }
  }

  lemma LinkIsSmaller(n: Node, l: Link)
    requires l in n.links
    ensures l.cid < n
  {
    var i :| 0 <= i < |n.links| && n.links[i] == l;
    assert n.links[i].cid < n;
  }

  lemma NothingNamesRoot(root: Node, n: Node, l: Link)
    requires n in Closure(root) && l in n.links
    ensures l.cid != root
  {
    LinkIsSmaller(n, l);
    if n != root {
      ClosureIsSmaller(root, n);
    }
  }

  // ---------- The scan of the pushed block ----------

  function Me(doc: DocId, root: Node): HeadKey { HeadKey(SpaceOf(doc, NO_FIELD), root) }

  ghost predicate HasHeads(root: Node) { exists l :: l in root.links && l.name == HEAD }

  /** The heads once the first i links of the pushed block have been scanned. */
  ghost function Seen(doc: DocId, root: Node, h0: Heads, b0: set<Node>, i: nat): Heads
    requires i <= |root.links|
  {
    ScannedHeads(h0, b0, SpaceOf(doc, NO_FIELD), HasHeads(root), root.links[..i], root, root.delta.priority)
  }

  function LinkKey(doc: DocId, root: Node, i: nat): HeadKey
    requires i < |root.links|
  {
    HeadKey(SpaceOf(doc, NO_FIELD), root.links[i].cid)
  }

  ghost predicate ScanRight(doc: DocId, root: Node, h0: Heads, b0: set<Node>, heads: Heads, i: nat, look: Look) {
    && i <= |root.links|
    && match look
       case IsHead => heads == Seen(doc, root, h0, b0, i)
       case DropHead => i < |root.links| && heads == Seen(doc, root, h0, b0, i) && LinkKey(doc, root, i) in heads
       case IsStored => i < |root.links| && heads == Seen(doc, root, h0, b0, i) && LinkKey(doc, root, i) !in heads
       case BecomeHead => heads[Me(doc, root) := root.delta.priority] == Seen(doc, root, h0, b0, i)
  }

  /** The heads while the push works on its own block, and what stays of them afterwards. */
  ghost predicate PushRight(doc: DocId, root: Node, h0: Heads, b0: set<Node>, s: Session) {
    && |s.tasks| > 0 && s.tasks[0].node == root && s.tasks[0].field == NO_FIELD
    && match s.tasks[0].phase
       case Waiting => |s.tasks| == 1 && s.heads == h0 && s.blocks == b0
       case Merging(_) => |s.tasks| == 1 && s.heads == h0 && s.blocks == b0 + {root}
       case Scanning(i, _, look) =>
         |s.tasks| == 1 && s.blocks == b0 + {root} && ScanRight(doc, root, h0, b0, s.heads, i, look)
       case _ => Me(doc, root) in s.heads <==> Me(doc, root) in Seen(doc, root, h0, b0, |root.links|)
  }

  ghost predicate OthersBelow(root: Node, s: Session) {
    forall u :: 0 < u < |s.tasks| ==> s.tasks[u].node != root
  }

  lemma SeenNext(doc: DocId, root: Node, h0: Heads, b0: set<Node>, i: nat)
    requires i < |root.links|
    ensures
      var before, after, k := Seen(doc, root, h0, b0, i), Seen(doc, root, h0, b0, i + 1), LinkKey(doc, root, i);
      && root.links[i].cid != root
      && (k in before ==> after == (before - {k})[Me(doc, root) := root.delta.priority])
      && (k !in before && root.links[i].cid in b0 ==> after == before[Me(doc, root) := root.delta.priority])
      && (k !in before && root.links[i].cid !in b0 ==> after == before)
  {
    LinkIsNotSelf(root, root.links[i]);
    ScanStep(h0, b0, SpaceOf(doc, NO_FIELD), HasHeads(root), root.links, i, root, root.delta.priority);
  }

  lemma ScanStarts(doc: DocId, root: Node, h0: Heads, b0: set<Node>)
    ensures AfterMerge(root).Scanning? && AfterMerge(root).i == 0 && AfterMerge(root).kids == []
    ensures ScanRight(doc, root, h0, b0, h0, 0, AfterMerge(root).look)
  {
    assert root.links[..0] == [];
    assert h0 - Superseded(SpaceOf(doc, NO_FIELD), []) == h0;
  }

  /** One access of the scan of the pushed block. */
  lemma ScanIsRight(doc: DocId, root: Node, h0: Heads, b0: set<Node>, s: Session)
    requires PushRight(doc, root, h0, b0, s) && s.tasks[0].phase.Scanning?
    requires s.tasks[0].phase.i < |root.links| || s.tasks[0].phase.look == BecomeHead
    ensures PushRight(doc, root, h0, b0, StepTask(doc, s, 0))
  {
    var i := s.tasks[0].phase.i;
    if i < |root.links| {
      SeenNext(doc, root, h0, b0, i);
      assert root.links[i] in root.links;
    }
    match s.tasks[0].phase.look
    case IsHead =>
    case DropHead =>
    case IsStored =>
    case BecomeHead =>
  }

  lemma MergeIsRight(doc: DocId, root: Node, h0: Heads, b0: set<Node>, s: Session)
    requires PushRight(doc, root, h0, b0, s) && (s.tasks[0].phase.Waiting? || s.tasks[0].phase.Merging?)
    ensures PushRight(doc, root, h0, b0, StepTask(doc, s, 0))
  {
    ScanStarts(doc, root, h0, b0);
  }

  lemma LaterIsRight(doc: DocId, root: Node, h0: Heads, b0: set<Node>, s: Session)
    requires PushRight(doc, root, h0, b0, s) && (s.tasks[0].phase.Spawning? || s.tasks[0].phase.Fetching?)
    ensures PushRight(doc, root, h0, b0, StepTask(doc, s, 0))
  {
    ActionIsLocal(doc, s, 0);
  }

  lemma PushStepRight(doc: DocId, root: Node, h0: Heads, b0: set<Node>, s: Session)
    requires PushRight(doc, root, h0, b0, s) && CanAct(s, 0)
    ensures PushRight(doc, root, h0, b0, StepTask(doc, s, 0))
  {
    var phase := s.tasks[0].phase;
    if phase.Scanning? && (phase.i < |root.links| || phase.look == BecomeHead) {
      ScanIsRight(doc, root, h0, b0, s);
    } else if phase.Waiting? || phase.Merging? {
      MergeIsRight(doc, root, h0, b0, s);
    } else if phase.Spawning? || phase.Fetching? {
      LaterIsRight(doc, root, h0, b0, s);
    }
  }

  // ---------- The other jobs ----------

  /** A job below the pushed block neither makes it a head nor drops it. */
  lemma OtherHeads(doc: DocId, root: Node, s: Session, t: nat)
    requires CanAct(s, t) && TaskRight(root, s, s.tasks[t]) && s.tasks[t].node != root
    ensures Me(doc, root) in StepTask(doc, s, t).heads <==> Me(doc, root) in s.heads
  {
    var task := s.tasks[t];
    if task.phase.Scanning? && task.phase.i < |task.node.links| {
      NothingNamesRoot(root, task.node, task.node.links[task.phase.i]);
    }
  }

  lemma OtherStepRight(doc: DocId, root: Node, h0: Heads, b0: set<Node>, s: Session, t: nat)
    requires PushRight(doc, root, h0, b0, s) && CanAct(s, t) && t > 0 && TaskRight(root, s, s.tasks[t])
    requires s.tasks[t].node != root
    ensures PushRight(doc, root, h0, b0, StepTask(doc, s, t))
  {
    ActionIsLocal(doc, s, t);
    OtherHeads(doc, root, s, t);
  }

  lemma StaysBelow(doc: DocId, root: Node, s: Session, t: nat)
    requires OthersBelow(root, s) && CanAct(s, t) && TaskRight(root, s, s.tasks[t])
    ensures OthersBelow(root, StepTask(doc, s, t))
  {
    var s' := StepTask(doc, s, t);
    ActionIsLocal(doc, s, t);
    if s.tasks[t].phase.Fetching? {
      var c := s.tasks[t].phase.c;
      assert c in Kids(s.tasks[t].phase);
      var l :| l in s.tasks[t].node.links && l.cid == c;
      NothingNamesRoot(root, s.tasks[t].node, l);
    }
    forall u | 0 < u < |s'.tasks| ensures s'.tasks[u].node != root {
      if u < |s.tasks| {
        assert s'.tasks[u].node == s.tasks[u].node;
      }
    }
  }

  // ---------- Whole sessions ----------

  lemma {:induction false} RunIsRight(doc: DocId, root: Node, h0: Heads, b0: set<Node>, s: Session, schedule: seq<nat>)
    requires AllWellNamed(doc, root) && Inv(root, b0, s) && IsSchedule(doc, s, schedule)
    requires PushRight(doc, root, h0, b0, s) && OthersBelow(root, s)
    ensures PushRight(doc, root, h0, b0, RunSession(doc, s, schedule))
    decreases |schedule|
  {
    if schedule != [] {
      var t := schedule[0];
      assert TaskRight(root, s, s.tasks[t]);
      ActionKeepsInv(doc, root, b0, s, t);
      StaysBelow(doc, root, s, t);
      if t == 0 {
        PushStepRight(doc, root, h0, b0, s);
      } else {
        OtherStepRight(doc, root, h0, b0, s, t);
      }
      RunIsRight(doc, root, h0, b0, StepTask(doc, s, t), schedule[1..]);
    }
  }

  /**
   In every completed session, under every interleaving, the pushed block is a head exactly when it attaches to the
   store that the session started from: it has no `_head` link, or some link leads to a head or a stored block.
   */
  lemma PushedIsHeadExactly(doc: DocId, root: Node, s0: Session, schedule: seq<nat>)
    requires IsStart(doc, root, s0) && IsSchedule(doc, s0, schedule) && IsComplete(RunSession(doc, s0, schedule))
    ensures Me(doc, root) !in s0.heads
    ensures Me(doc, root) in RunSession(doc, s0, schedule).heads
            <==> Attaches(s0.heads, s0.blocks, SpaceOf(doc, NO_FIELD), root.links)
  {
    StartHasInv(doc, root, s0);
    RunIsRight(doc, root, s0.heads, s0.blocks, s0, schedule);
    assert root.links[..|root.links|] == root.links;
  }

  /** The pushed block is a tip of what a completed session leaves, so the heads are the tips only if it attaches. */
  lemma TipsOnlyIfAttached(doc: DocId, root: Node, s0: Session, schedule: seq<nat>)
    requires IsStart(doc, root, s0) && IsSchedule(doc, s0, schedule) && IsComplete(RunSession(doc, s0, schedule))
    ensures IsTip(RunSession(doc, s0, schedule).blocks, SpaceOf(doc, NO_FIELD), root)
    ensures HeadsAreTips(RunSession(doc, s0, schedule).heads, RunSession(doc, s0, schedule).blocks)
            ==> Attaches(s0.heads, s0.blocks, SpaceOf(doc, NO_FIELD), root.links)
  {
    var s := RunSession(doc, s0, schedule);
    PushedIsHeadExactly(doc, root, s0, schedule);
    SyncClosure(doc, root, s0, schedule);
    assert root in Closure(root) && WellNamed(doc, root);
    forall m | m in s.blocks ensures !NamesHead(m, root) {
      if m in s0.blocks {
        assert forall l :: l in m.links ==> l.cid in s0.blocks;
      } else {
        forall l | l in m.links ensures l.cid != root { NothingNamesRoot(root, m, l); }
      }
    }
    if HeadsAreTips(s.heads, s.blocks) {
      assert Me(doc, root) in s.heads;
    }
  }
}
