/**
 Pushes whose sessions keep the heads exact. If the push brings at most one new block of each DAG, every job touches
 heads that no other job touches, so the interleaving does not matter.
 */
module SyncTips {
  import opened Crdt
  import opened Clock
  import opened Sync
  import opened SyncSafety
  import opened SyncHeads
  import opened SyncPush

  /** The new blocks are of different DAGs, as those of one commit are. */
  ghost predicate OneOfEach(root: Node, b0: set<Node>) {
    forall a, b :: a in New(root, b0) && b in New(root, b0) && NamespaceOf(a.delta) == NamespaceOf(b.delta) ==> a == b
  }

  function MeOf(n: Node): HeadKey { HeadKey(NamespaceOf(n.delta), n) }

  function KeyOf(n: Node, i: nat): HeadKey
    requires i < |n.links|
  {
    HeadKey(NamespaceOf(n.delta), n.links[i].cid)
  }

  // ---------- What one job does to the heads ----------

  ghost predicate NoneLeft(heads: Heads, n: Node, i: nat) {
    i <= |n.links| && forall j :: 0 <= j < i ==> KeyOf(n, j) !in heads
  }

  /** A block without `_head` links is to become a head at once, another one after its first `_head` link. */
  ghost predicate IsDue(n: Node, i: nat)
    requires i <= |n.links|
  {
    HasHeads(n) ==> exists j :: 0 <= j < i && n.links[j].name == HEAD
  }

  ghost predicate TaskHeads(heads: Heads, n: Node, phase: Phase) {
    match phase
    case Waiting => true
    case Merging(_) => true
    case Scanning(i, _, look) =>
      && NoneLeft(heads, n, i) && (IsDue(n, i) ==> look == BecomeHead || MeOf(n) in heads)
      && (look == IsStored ==> i < |n.links| && KeyOf(n, i) !in heads)
    case _ => NoneLeft(heads, n, |n.links|) && MeOf(n) in heads
  }

  ghost predicate HeadsFrom(root: Node, b0: set<Node>, h0: Heads, heads: Heads) {
    && (forall k :: k in heads ==>
          || (k in h0 && heads[k] == h0[k])
          || (k.cid in New(root, b0) && k == MeOf(k.cid) && heads[k] == k.cid.delta.priority))
    && (forall k :: k in h0 && k !in heads ==>
          exists n, i: nat :: n in New(root, b0) && i < |n.links| && k == KeyOf(n, i))
  }

  ghost predicate HasTask(s: Session, b: Node) {
    exists u :: 0 <= u < |s.tasks| && s.tasks[u].node == b && !s.tasks[u].phase.Waiting?
  }

  ghost predicate TipsInv(root: Node, b0: set<Node>, h0: Heads, s: Session) {
    && HeadsFrom(root, b0, h0, s.heads)
    && (forall u :: 0 <= u < |s.tasks| ==> TaskHeads(s.heads, s.tasks[u].node, s.tasks[u].phase))
    && (forall b :: b in s.blocks && b !in b0 ==> HasTask(s, b))
  }

  // ---------- Jobs do not touch each other's heads ----------

  lemma SpaceIs(doc: DocId, root: Node, s: Session, task: Task)
    requires AllWellNamed(doc, root) && TaskRight(root, s, task)
    ensures SpaceOf(doc, task.field) == NamespaceOf(task.node.delta)
  {
    assert WellNamed(doc, task.node);
  }

  /** A key that one new block drops is not the head of another, or of itself. */
  lemma KeyIsNotMe(root: Node, b0: set<Node>, n: Node, i: nat, m: Node)
    requires OneOfEach(root, b0) && n in New(root, b0) && m in New(root, b0) && i < |n.links|
    ensures KeyOf(n, i) != MeOf(m)
  {
    LinkIsNotSelf(n, n.links[i]);
  }

  /** What an action does to the heads: nothing, or one of the two writes of its own scan. */
  ghost predicate Writes(heads: Heads, n: Node, phase: Phase, heads': Heads) {
    || heads' == heads
    || (phase.Scanning? && phase.look == DropHead && phase.i < |n.links| && heads' == heads - {KeyOf(n, phase.i)})
    || (phase.Scanning? && phase.look == BecomeHead && heads' == heads[MeOf(n) := n.delta.priority])
  }

  lemma ActionWrites(doc: DocId, root: Node, s: Session, t: nat)
    requires AllWellNamed(doc, root) && CanAct(s, t) && TaskRight(root, s, s.tasks[t])
    ensures Writes(s.heads, s.tasks[t].node, s.tasks[t].phase, StepTask(doc, s, t).heads)
  {
    SpaceIs(doc, root, s, s.tasks[t]);
  }

  lemma WritesKeepTask(root: Node, b0: set<Node>, heads: Heads, n: Node, p: Phase, heads': Heads, m: Node, phase: Phase)
    requires OneOfEach(root, b0) && n in New(root, b0) && m in New(root, b0) && Writes(heads, n, p, heads')
    requires TaskHeads(heads, m, phase)
    ensures TaskHeads(heads', m, phase)
  {
    forall j: nat | j < |m.links| && KeyOf(m, j) !in heads ensures KeyOf(m, j) !in heads' {
      KeyIsNotMe(root, b0, m, j, n);
    }
    if MeOf(m) in heads && p.Scanning? && p.i < |n.links| {
      KeyIsNotMe(root, b0, n, p.i, m);
    }
  }

  lemma WritesKeepFrom(root: Node, b0: set<Node>, h0: Heads, heads: Heads, n: Node, p: Phase, heads': Heads)
    requires n in New(root, b0) && Writes(heads, n, p, heads') && HeadsFrom(root, b0, h0, heads)
    ensures HeadsFrom(root, b0, h0, heads')
  {
    forall k | k in h0 && k !in heads'
      ensures exists m, i: nat :: m in New(root, b0) && i < |m.links| && k == KeyOf(m, i)
    {
      if k in heads {
        assert k == KeyOf(n, p.i);
      }
    }
  }

  // ---------- The acting job ----------

  /** The `_head` links of a new block lead to blocks that were there before. */
  lemma HeadsWereThere(doc: DocId, root: Node, b0: set<Node>, n: Node, l: Link)
    requires AllWellNamed(doc, root) && OneOfEach(root, b0) && n in New(root, b0) && l in n.links && l.name == HEAD
    ensures l.cid in b0
  {
    ClosureStep(root, n, l);
    LinkIsNotSelf(n, l);
    assert WellNamed(doc, n) && WellNamed(doc, l.cid);
  }

  lemma DueNext(n: Node, i: nat)
    requires i < |n.links|
    ensures IsDue(n, i + 1) <==> IsDue(n, i) || n.links[i].name == HEAD
  {
    assert n.links[i] in n.links;
  }

  /** Looking at a link. */
  lemma LookKeepsTask(doc: DocId, root: Node, b0: set<Node>, blocks: set<Node>, heads: Heads, n: Node, i: nat,
                      kids: seq<Node>)
    requires AllWellNamed(doc, root) && OneOfEach(root, b0) && n in New(root, b0) && b0 <= blocks && i < |n.links|
    ensures TaskHeads(heads, n, Scanning(i, kids, IsHead)) && KeyOf(n, i) !in heads ==>
              TaskHeads(heads, n, Scanning(i, kids, IsStored))
    ensures TaskHeads(heads, n, Scanning(i, kids, IsHead)) ==> TaskHeads(heads, n, Scanning(i, kids, DropHead))
    ensures TaskHeads(heads, n, Scanning(i, kids, DropHead)) ==>
              TaskHeads(heads - {KeyOf(n, i)}, n, Scanning(i + 1, kids, BecomeHead))
    ensures TaskHeads(heads, n, Scanning(i, kids, IsStored)) ==>
              TaskHeads(heads, n, Scanning(i + 1, kids, BecomeHead))
    ensures TaskHeads(heads, n, Scanning(i, kids, IsStored)) && n.links[i].cid !in blocks ==>
              TaskHeads(heads, n, Scanning(i + 1, kids + [n.links[i].cid], IsHead))
  {
    DueNext(n, i);
    if n.links[i].name == HEAD {
      HeadsWereThere(doc, root, b0, n, n.links[i]);
    }
  }

  lemma HeadKeepsTask(root: Node, b0: set<Node>, heads: Heads, n: Node, i: nat, kids: seq<Node>)
    requires OneOfEach(root, b0) && n in New(root, b0) && TaskHeads(heads, n, Scanning(i, kids, BecomeHead))
    ensures TaskHeads(heads[MeOf(n) := n.delta.priority], n, Scanning(i, kids, IsHead))
  {
    forall j: nat | j < |n.links| ensures KeyOf(n, j) != MeOf(n) { KeyIsNotMe(root, b0, n, j, n); }
  }

  lemma ScanKeepsTask(doc: DocId, root: Node, b0: set<Node>, s: Session, t: nat)
    requires AllWellNamed(doc, root) && OneOfEach(root, b0) && CanAct(s, t) && TaskRight(root, s, s.tasks[t])
    requires s.tasks[t].node in New(root, b0) && b0 <= s.blocks && s.tasks[t].phase.Scanning?
    requires s.tasks[t].phase.i < |s.tasks[t].node.links| || s.tasks[t].phase.look == BecomeHead
    requires TaskHeads(s.heads, s.tasks[t].node, s.tasks[t].phase)
    ensures TaskHeads(StepTask(doc, s, t).heads, s.tasks[t].node, StepTask(doc, s, t).tasks[t].phase)
  {
    var n, i, kids := s.tasks[t].node, s.tasks[t].phase.i, s.tasks[t].phase.kids;
    SpaceIs(doc, root, s, s.tasks[t]);
    if s.tasks[t].phase.look == BecomeHead {
      HeadKeepsTask(root, b0, s.heads, n, i, kids);
    } else {
      LookKeepsTask(doc, root, b0, s.blocks, s.heads, n, i, kids);
    }
  }

  lemma StartKeepsTask(heads: Heads, n: Node)
    ensures TaskHeads(heads, n, AfterMerge(n))
  {
  }

  /** A block that has been scanned to its end is a head. */
  lemma EndKeepsTask(heads: Heads, n: Node, kids: seq<Node>, look: Look, phase: Phase)
    requires TaskHeads(heads, n, Scanning(|n.links|, kids, look)) && look != BecomeHead
    requires phase.Spawning? || phase.Finished?
    ensures TaskHeads(heads, n, phase)
  {
    assert HasHeads(n) ==> IsDue(n, |n.links|);
  }

  lemma ActingKeepsTask(doc: DocId, root: Node, b0: set<Node>, s: Session, t: nat)
    requires AllWellNamed(doc, root) && OneOfEach(root, b0) && CanAct(s, t) && TaskRight(root, s, s.tasks[t])
    requires s.tasks[t].node in New(root, b0) && b0 <= s.blocks
    requires TaskHeads(s.heads, s.tasks[t].node, s.tasks[t].phase)
    ensures TaskHeads(StepTask(doc, s, t).heads, s.tasks[t].node, StepTask(doc, s, t).tasks[t].phase)
  {
    var n, phase := s.tasks[t].node, s.tasks[t].phase;
    if phase.Merging? {
      StartKeepsTask(s.heads, n);
    } else if phase.Scanning? {
      if phase.i < |n.links| || phase.look == BecomeHead {
        ScanKeepsTask(doc, root, b0, s, t);
      } else {
        EndKeepsTask(s.heads, n, phase.kids, phase.look, StepTask(doc, s, t).tasks[t].phase);
      }
    }
  }

  // ---------- Whole sessions ----------

  lemma TaskIsNew(root: Node, b0: set<Node>, s: Session, u: nat)
    requires PushInv(root, b0, s) && root !in b0 && u < |s.tasks|
    ensures s.tasks[u].node in New(root, b0)
  {
    assert TaskRight(root, s, s.tasks[u]);
  }

  lemma OtherTaskKeepsHeads(doc: DocId, root: Node, b0: set<Node>, h0: Heads, s: Session, t: nat, u: nat)
    requires AllWellNamed(doc, root) && OneOfEach(root, b0) && root !in b0 && PushInv(root, b0, s) && CanAct(s, t)
    requires TipsInv(root, b0, h0, s) && u < |s.tasks| && u != t
    ensures TaskHeads(StepTask(doc, s, t).heads, s.tasks[u].node, s.tasks[u].phase)
  {
    assert TaskRight(root, s, s.tasks[t]);
    TaskIsNew(root, b0, s, t);
    TaskIsNew(root, b0, s, u);
    ActionWrites(doc, root, s, t);
    WritesKeepTask(root, b0, s.heads, s.tasks[t].node, s.tasks[t].phase, StepTask(doc, s, t).heads,
                   s.tasks[u].node, s.tasks[u].phase);
  }

  lemma BlocksHaveTasks(doc: DocId, b0: set<Node>, s: Session, t: nat, b: Node)
    requires CanAct(s, t) && b in StepTask(doc, s, t).blocks && (b in s.blocks ==> HasTask(s, b))
    ensures HasTask(StepTask(doc, s, t), b)
  {
    var s' := StepTask(doc, s, t);
    ActionIsLocal(doc, s, t);
    if b in s.blocks {
      var u :| 0 <= u < |s.tasks| && s.tasks[u].node == b && !s.tasks[u].phase.Waiting?;
      assert s'.tasks[u].node == b && !s'.tasks[u].phase.Waiting?;
    } else {
      assert s'.tasks[t].node == b && !s'.tasks[t].phase.Waiting?;
    }
  }

  lemma AllTaskHeads(s: Session, s': Session, t: nat)
    requires t < |s.tasks| <= |s'.tasks| <= |s.tasks| + 1
    requires forall u :: 0 <= u < |s.tasks| && u != t ==>
               s'.tasks[u] == s.tasks[u] && TaskHeads(s'.heads, s.tasks[u].node, s.tasks[u].phase)
    requires TaskHeads(s'.heads, s'.tasks[t].node, s'.tasks[t].phase)
    requires |s'.tasks| > |s.tasks| ==> s'.tasks[|s.tasks|].phase.Waiting?
    ensures forall u :: 0 <= u < |s'.tasks| ==> TaskHeads(s'.heads, s'.tasks[u].node, s'.tasks[u].phase)
  {
  }

  lemma TasksKeepHeads(doc: DocId, root: Node, b0: set<Node>, h0: Heads, s: Session, t: nat, s': Session)
    requires AllWellNamed(doc, root) && OneOfEach(root, b0) && root !in b0 && PushInv(root, b0, s) && CanAct(s, t)
    requires TipsInv(root, b0, h0, s) && s' == StepTask(doc, s, t)
    ensures forall u :: 0 <= u < |s'.tasks| ==> TaskHeads(s'.heads, s'.tasks[u].node, s'.tasks[u].phase)
  {
    assert TaskRight(root, s, s.tasks[t]);
    TaskIsNew(root, b0, s, t);
    ActionIsLocal(doc, s, t);
    ActingKeepsTask(doc, root, b0, s, t);
    forall u | 0 <= u < |s.tasks| && u != t ensures TaskHeads(s'.heads, s.tasks[u].node, s.tasks[u].phase) {
      OtherTaskKeepsHeads(doc, root, b0, h0, s, t, u);
    }
    AllTaskHeads(s, s', t);
  }

  lemma TipsInvKept(doc: DocId, root: Node, b0: set<Node>, h0: Heads, s: Session, t: nat)
    requires AllWellNamed(doc, root) && OneOfEach(root, b0) && root !in b0 && PushInv(root, b0, s) && CanAct(s, t)
    requires TipsInv(root, b0, h0, s)
    ensures TipsInv(root, b0, h0, StepTask(doc, s, t))
  {
    var s' := StepTask(doc, s, t);
    assert TaskRight(root, s, s.tasks[t]);
    TaskIsNew(root, b0, s, t);
    ActionWrites(doc, root, s, t);
    WritesKeepFrom(root, b0, h0, s.heads, s.tasks[t].node, s.tasks[t].phase, s'.heads);
    TasksKeepHeads(doc, root, b0, h0, s, t, s');
    forall b | b in s'.blocks && b !in b0 ensures HasTask(s', b) {
      BlocksHaveTasks(doc, b0, s, t, b);
    }
  }

  lemma {:induction false} RunKeepsTips(doc: DocId, root: Node, b0: set<Node>, h0: Heads, s: Session,
                                        schedule: seq<nat>)
    requires AllWellNamed(doc, root) && OneOfEach(root, b0) && root !in b0 && PushInv(root, b0, s)
    requires TipsInv(root, b0, h0, s) && IsSchedule(doc, s, schedule)
    ensures TipsInv(root, b0, h0, RunSession(doc, s, schedule))
    decreases |schedule|
  {
    if schedule != [] {
      TipsInvKept(doc, root, b0, h0, s, schedule[0]);
      PushInvKept(doc, root, b0, s, schedule[0]);
      RunKeepsTips(doc, root, b0, h0, StepTask(doc, s, schedule[0]), schedule[1..]);
    }
  }

  /** All jobs are done: each new block is a head, and nothing that it links to is. */
  ghost predicate AllScanned(root: Node, b0: set<Node>, heads: Heads) {
    forall n :: n in New(root, b0) ==> MeOf(n) in heads && NoneLeft(heads, n, |n.links|)
  }

  lemma FinishedIsScanned(root: Node, b0: set<Node>, h0: Heads, s: Session)
    requires TipsInv(root, b0, h0, s) && s.blocks == b0 + Closure(root)
    requires forall t :: 0 <= t < |s.tasks| ==> s.tasks[t].phase == Finished
    ensures AllScanned(root, b0, s.heads)
  {
    forall n | n in New(root, b0) ensures MeOf(n) in s.heads && NoneLeft(s.heads, n, |n.links|) {
      assert HasTask(s, n);
      var u :| 0 <= u < |s.tasks| && s.tasks[u].node == n && !s.tasks[u].phase.Waiting?;
      assert TaskHeads(s.heads, s.tasks[u].node, s.tasks[u].phase);
    }
  }

  // ---------- The heads are the tips ----------

  lemma NewIsTip(doc: DocId, root: Node, b0: set<Node>, n: Node)
    requires AllWellNamed(doc, root) && OneOfEach(root, b0) && LinkClosed(b0) && n in New(root, b0)
    ensures IsTip(b0 + Closure(root), NamespaceOf(n.delta), n)
  {
    forall m | m in b0 + Closure(root) ensures !NamesHead(m, n) {
      forall l | l in m.links && l.name == HEAD ensures l.cid in b0 {
        if m !in b0 {
          HeadsWereThere(doc, root, b0, m, l);
        }
      }
    }
  }

  /** A link to a block of the same DAG is a `_head` link. */
  lemma SameDagIsHead(doc: DocId, root: Node, n: Node, l: Link)
    requires AllWellNamed(doc, root) && n in Closure(root) && l in n.links
    ensures NamespaceOf(l.cid.delta) == NamespaceOf(n.delta) <==> l.name == HEAD
  {
    ClosureStep(root, n, l);
    assert WellNamed(doc, n) && WellNamed(doc, l.cid);
  }

  lemma OldHeadIsTip(doc: DocId, root: Node, b0: set<Node>, h0: Heads, heads: Heads, k: HeadKey)
    requires AllWellNamed(doc, root) && HeadsAreTips(h0, b0) && AllScanned(root, b0, heads) && k in h0 && k in heads
    ensures IsTip(b0 + Closure(root), k.ns, k.cid) && h0[k] == k.cid.delta.priority
  {
    assert IsTip(b0, k.ns, k.cid);
    forall m | m in b0 + Closure(root) ensures !NamesHead(m, k.cid) {
      if m !in b0 {
        forall l | l in m.links && l.name == HEAD ensures l.cid != k.cid {
          SameDagIsHead(doc, root, m, l);
          var j :| 0 <= j < |m.links| && m.links[j] == l;
          assert KeyOf(m, j) !in heads;
        }
      }
    }
  }

  lemma TipIsNotLinked(doc: DocId, root: Node, b0: set<Node>, k: HeadKey, n: Node, i: nat)
    requires AllWellNamed(doc, root) && IsTip(b0 + Closure(root), k.ns, k.cid) && n in New(root, b0) && i < |n.links|
    ensures KeyOf(n, i) != k
  {
    SameDagIsHead(doc, root, n, n.links[i]);
    assert !NamesHead(n, k.cid) && n.links[i] in n.links;
  }

  lemma TipIsHead(doc: DocId, root: Node, b0: set<Node>, h0: Heads, heads: Heads, k: HeadKey)
    requires AllWellNamed(doc, root) && HeadsAreTips(h0, b0) && AllScanned(root, b0, heads)
    requires HeadsFrom(root, b0, h0, heads) && IsTip(b0 + Closure(root), k.ns, k.cid)
    ensures k in heads
  {
    if k.cid in b0 {
      assert IsTip(b0, k.ns, k.cid);
      forall n, i: nat | n in New(root, b0) && i < |n.links| ensures k != KeyOf(n, i) {
        TipIsNotLinked(doc, root, b0, k, n, i);
      }
    } else {
      assert k == MeOf(k.cid);
    }
  }

  lemma ScannedAreTips(doc: DocId, root: Node, b0: set<Node>, h0: Heads, heads: Heads)
    requires AllWellNamed(doc, root) && OneOfEach(root, b0) && LinkClosed(b0) && HeadsAreTips(h0, b0)
    requires AllScanned(root, b0, heads) && HeadsFrom(root, b0, h0, heads)
    ensures HeadsAreTips(heads, b0 + Closure(root))
  {
    forall k | k in heads ensures IsTip(b0 + Closure(root), k.ns, k.cid) && heads[k] == k.cid.delta.priority {
      if k in h0 && heads[k] == h0[k] {
        OldHeadIsTip(doc, root, b0, h0, heads, k);
      } else {
        NewIsTip(doc, root, b0, k.cid);
      }
    }
    forall k: HeadKey | IsTip(b0 + Closure(root), k.ns, k.cid) ensures k in heads {
      TipIsHead(doc, root, b0, h0, heads, k);
    }
  }

  /**
   A push that brings at most one new block of each DAG, such as one commit with its fields, leaves the tips for heads
   in every interleaving of its jobs, if they were so before.
   */
  lemma OneOfEachKeepsTips(doc: DocId, root: Node, s0: Session, schedule: seq<nat>)
    requires IsStart(doc, root, s0) && IsSchedule(doc, s0, schedule) && IsComplete(RunSession(doc, s0, schedule))
    requires OneOfEach(root, s0.blocks) && HeadsAreTips(s0.heads, s0.blocks)
    ensures HeadsAreTips(RunSession(doc, s0, schedule).heads, RunSession(doc, s0, schedule).blocks)
  {
    var s := RunSession(doc, s0, schedule);
    StartHasPushInv(doc, root, s0);
    RunKeepsTips(doc, root, s0.blocks, s0.heads, s0, schedule);
    SyncClosure(doc, root, s0, schedule);
    FinishedIsScanned(root, s0.blocks, s0.heads, s);
    ScannedAreTips(doc, root, s0.blocks, s0.heads, s.heads);
  }
}
