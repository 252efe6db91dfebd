/** What every interleaving of a sync session keeps, and what holds once the wait group lets the push go on. */
module SyncSafety {
  import opened Crdt
  import opened Clock
  import opened Sync

  // ---------- Counting ----------

  function SumOf(ts: seq<Task>, f: Task -> nat): nat {
    if ts == [] then 0 else SumOf(ts[..|ts| - 1], f) + f(ts[|ts| - 1])
  }

  lemma {:induction false} SumUpdate(ts: seq<Task>, f: Task -> nat, t: nat, x: Task)
    requires t < |ts|
    ensures SumOf(ts[t := x], f) + f(ts[t]) == SumOf(ts, f) + f(x)
  {
    var init, last := ts[..|ts| - 1], ts[|ts| - 1];
    if t < |ts| - 1 {
      SumUpdate(init, f, t, x);
      assert ts[t := x][..|ts| - 1] == init[t := x];
    } else {
      assert ts[t := x][..|ts| - 1] == init;
    }
  }

  lemma {:induction false} SumZero(ts: seq<Task>, f: Task -> nat)
    requires SumOf(ts, f) == 0
    ensures forall i :: 0 <= i < |ts| ==> f(ts[i]) == 0
  {
    if ts != [] {
      SumZero(ts[..|ts| - 1], f);
    }
  }

  function Live(t: Task): nat { if t.phase == Finished then 0 else 1 }

  /** The jobs that the wait group has to wait for. */
  function Jobs(s: Session): nat
    requires |s.tasks| > 0
  {
    SumOf(s.tasks[1..], Live)
  }

  lemma JobsUpdate(s: Session, t: nat, x: Task)
    requires t < |s.tasks|
    ensures
      var s' := s.(tasks := s.tasks[t := x]);
      Jobs(s') + (if t == 0 then 0 else Live(s.tasks[t])) == Jobs(s) + (if t == 0 then 0 else Live(x))
  {
    if t == 0 {
      assert s.tasks[t := x][1..] == s.tasks[1..];
    } else {
      assert s.tasks[t := x][1..] == s.tasks[1..][t - 1 := x];
      SumUpdate(s.tasks[1..], Live, t - 1, x);
    }
  }

  lemma JobsAppend(s: Session, x: Task)
    requires |s.tasks| > 0
    ensures Jobs(s.(tasks := s.tasks + [x])) == Jobs(s) + Live(x)
  {
    assert (s.tasks + [x])[1..] == s.tasks[1..] + [x];
    assert (s.tasks[1..] + [x])[..|s.tasks[1..]|] == s.tasks[1..];
  }

  /** The wait group counts the unfinished jobs. */
  lemma CounterCountsJobs(doc: DocId, s: Session, t: nat)
    requires CanAct(s, t) && s.counter == Jobs(s)
    ensures StepTask(doc, s, t).counter == Jobs(StepTask(doc, s, t))
  {
    var s' := StepTask(doc, s, t);
    ActionIsLocal(doc, s, t);
    if s.tasks[t].phase.Fetching? {
      var mid := s.tasks[t].(phase := Spawning(s.tasks[t].phase.kids));
      JobsUpdate(s, t, mid);
      JobsAppend(s.(tasks := s.tasks[t := mid]), s'.tasks[|s.tasks|]);
    } else {
      JobsUpdate(s, t, s'.tasks[t]);
      assert s'.tasks == s.tasks[t := s'.tasks[t]];
    }
  }

  // ---------- The invariant ----------

  function Kids(p: Phase): seq<Node> {
    match p
    case Scanning(_, kids, _) => kids
    case Spawning(kids) => kids
    case Fetching(c, kids) => [c] + kids
    case _ => []
  }

  /** A link whose head is dropped leads to a stored block. */
  ghost predicate LookRight(blocks: set<Node>, n: Node, i: nat, look: Look) {
    && i <= |n.links| && (look.DropHead? || look.IsStored? ==> i < |n.links|)
    && (look.DropHead? ==> n.links[i].cid in blocks)
  }

  /** A task works on a block below the root, under the right field, and its children are its links. */
  ghost predicate TaskRight(root: Node, s: Session, task: Task) {
    && task.node in Closure(root) && task.field == FieldOf(task.node.delta)
    && (!task.phase.Waiting? ==> task.node in s.blocks)
    && (task.phase.Scanning? ==> LookRight(s.blocks, task.node, task.phase.i, task.phase.look))
    && forall c :: c in Kids(task.phase) ==> exists l :: l in task.node.links && l.cid == c
  }

  /** A job that will still store `c`, or look at the link from `b` to `c`, or spawn a job for `c`. */
  ghost predicate Covers(task: Task, b: Node, c: Node) {
    || (task.node == c && task.phase.Waiting?)
    || (task.phase.Fetching? && task.phase.c == c)
    || (task.node == b &&
        (|| task.phase.Merging?
         || c in Kids(task.phase)
         || (task.phase.Scanning? && exists j :: task.phase.i <= j < |b.links| && b.links[j].cid == c)))
  }

  ghost predicate Covered(s: Session, b: Node, c: Node) {
    c in s.blocks || exists t :: 0 <= t < |s.tasks| && Covers(s.tasks[t], b, c)
  }

  /** The job that a reserved block is reserved for. */
  ghost predicate Owns(t: nat, task: Task, c: Node) {
    || (t > 0 && task.node == c && (task.phase.Waiting? || task.phase.Merging? || task.phase.Scanning?))
    || (task.phase.Fetching? && task.phase.c == c)
  }

  ghost predicate TasksRight(root: Node, s: Session) {
    && |s.tasks| > 0 && s.tasks[0].node == root
    && (s.tasks[0].phase.Waiting? ==> |s.tasks| == 1)
    && forall t :: 0 <= t < |s.tasks| ==> TaskRight(root, s, s.tasks[t])
  }

  /** Only blocks below the root are added, and a block that is not merged yet is about to be. */
  ghost predicate StoresRight(root: Node, start: set<Node>, s: Session) {
    && start <= s.blocks <= start + Closure(root)
    && HeadsStored(s.heads, s.blocks)
    && s.merged <= s.blocks
    && forall b :: b in s.blocks ==> b in s.merged || IsMerging(s, b)
  }

  ghost predicate IsMerging(s: Session, b: Node) {
    exists t :: 0 <= t < |s.tasks| && s.tasks[t].node == b && s.tasks[t].phase.Merging?
  }

  ghost predicate ReservationsRight(root: Node, s: Session) {
    forall c :: c in s.reserved ==> c == root || exists t :: 0 <= t < |s.tasks| && Owns(t, s.tasks[t], c)
  }

  /** Every link of a stored block is stored, or some task will see to it. */
  ghost predicate LinksCovered(s: Session) {
    forall b, l :: b in s.blocks && l in b.links ==> Covered(s, b, l.cid)
  }

  ghost predicate Inv(root: Node, start: set<Node>, s: Session) {
    && TasksRight(root, s) && s.counter == Jobs(s)
    && StoresRight(root, start, s)
    && ReservationsRight(root, s) && LinksCovered(s)
  }

  ghost predicate AllWellNamed(doc: DocId, root: Node) {
    forall m :: m in Closure(root) ==> WellNamed(doc, m)
  }

  // ---------- Every action keeps it ----------

  /** A child is processed under the field of its own delta. */
  lemma {:induction false} NameIsField(doc: DocId, n: Node, links: seq<Link>, c: Node)
    requires WellNamed(doc, n) && c.delta.Valid() && forall l :: l in links ==> l in n.links
    ensures NameOf(links, c) == NO_FIELD || (n.delta.CompositeDelta? && NameOf(links, c) == FieldOf(c.delta))
    ensures NameOf(links, c) == NO_FIELD ==> forall l :: l in links && l.cid == c ==> l.name == HEAD
  {
    if links != [] {
      var l := links[|links| - 1];
      assert l in n.links;
      NameIsField(doc, n, links[..|links| - 1], c);
      assert links == links[..|links| - 1] + [l];
    }
  }

  lemma ChildFieldRight(doc: DocId, n: Node, l: Link)
    requires WellNamed(doc, n) && l in n.links && l.cid.delta.Valid()
    ensures ChildField(n, FieldOf(n.delta), l.cid) == FieldOf(l.cid.delta)
  {
    NameIsField(doc, n, n.links, l.cid);
  }

  /** Looking at a link adds at most that link to the children. */
  lemma ScanIsLocal(doc: DocId, s: Session, t: nat, i: nat, kids: seq<Node>, look: Look)
    requires t < |s.tasks| && (i < |s.tasks[t].node.links| || look == BecomeHead)
    ensures
      var s' := Scan(doc, s, t, i, kids, look);
      && s'.blocks == s.blocks && s'.tasks == s.tasks[t := s.tasks[t].(phase := s'.tasks[t].phase)]
      && s'.tasks[t].phase.Scanning?
      && (|| Kids(s'.tasks[t].phase) == kids
          || (i < |s.tasks[t].node.links| && Kids(s'.tasks[t].phase) == kids + [s.tasks[t].node.links[i].cid]))
  {
  }

  lemma ScanLooksRight(doc: DocId, s: Session, t: nat, i: nat, kids: seq<Node>, look: Look)
    requires t < |s.tasks| && (i < |s.tasks[t].node.links| || look == BecomeHead) && HeadsStored(s.heads, s.blocks)
    requires LookRight(s.blocks, s.tasks[t].node, i, look)
    ensures
      var s' := Scan(doc, s, t, i, kids, look);
      s'.tasks[t].phase.Scanning? && LookRight(s'.blocks, s.tasks[t].node, s'.tasks[t].phase.i, s'.tasks[t].phase.look)
  {
  }

  /** An action only finds children among the links. */
  lemma KidsFromLinks(doc: DocId, s: Session, t: nat, c: Node)
    requires CanAct(s, t) && c in Kids(StepTask(doc, s, t).tasks[t].phase)
    ensures c in Kids(s.tasks[t].phase) || exists l :: l in s.tasks[t].node.links && l.cid == c
  {
    var task := s.tasks[t];
    if task.phase.Scanning? && (task.phase.i < |task.node.links| || task.phase.look == BecomeHead) {
      ScanIsLocal(doc, s, t, task.phase.i, task.phase.kids, task.phase.look);
      if task.phase.i < |task.node.links| {
        assert task.node.links[task.phase.i] in task.node.links;
      }
    } else {
      OtherKids(doc, s, t, c);
    }
  }

  lemma OtherKids(doc: DocId, s: Session, t: nat, c: Node)
    requires CanAct(s, t) && c in Kids(StepTask(doc, s, t).tasks[t].phase)
    requires
      var task := s.tasks[t];
      !(task.phase.Scanning? && (task.phase.i < |task.node.links| || task.phase.look == BecomeHead))
    ensures c in Kids(s.tasks[t].phase)
  {
  }

  lemma ActingLooksRight(doc: DocId, root: Node, s: Session, t: nat)
    requires CanAct(s, t) && TaskRight(root, s, s.tasks[t]) && HeadsStored(s.heads, s.blocks)
    requires StepTask(doc, s, t).tasks[t].phase.Scanning?
    ensures
      var s' := StepTask(doc, s, t);
      LookRight(s'.blocks, s.tasks[t].node, s'.tasks[t].phase.i, s'.tasks[t].phase.look)
  {
    if s.tasks[t].phase.Scanning? {
      ScanLooksRight(doc, s, t, s.tasks[t].phase.i, s.tasks[t].phase.kids, s.tasks[t].phase.look);
    }
  }

  lemma ActingTaskKept(doc: DocId, root: Node, s: Session, t: nat)
    requires CanAct(s, t) && TaskRight(root, s, s.tasks[t]) && HeadsStored(s.heads, s.blocks)
    ensures TaskRight(root, StepTask(doc, s, t), StepTask(doc, s, t).tasks[t])
  {
    var s', task' := StepTask(doc, s, t), StepTask(doc, s, t).tasks[t];
    ActionIsLocal(doc, s, t);
    if task'.phase.Scanning? {
      ActingLooksRight(doc, root, s, t);
    }
    forall c | c in Kids(task'.phase) ensures exists l :: l in task'.node.links && l.cid == c {
      KidsFromLinks(doc, s, t, c);
    }
  }

  lemma NewTaskRight(doc: DocId, root: Node, s: Session, t: nat)
    requires AllWellNamed(doc, root) && CanAct(s, t) && s.tasks[t].phase.Fetching? && TaskRight(root, s, s.tasks[t])
    ensures TaskRight(root, StepTask(doc, s, t), StepTask(doc, s, t).tasks[|s.tasks|])
  {
    var task := s.tasks[t];
    assert task.phase.c in Kids(task.phase);
    var l :| l in task.node.links && l.cid == task.phase.c;
    ClosureStep(root, task.node, l);
    ChildFieldRight(doc, task.node, l);
  }

  /** An action changes its own task, may add one, and never removes a block. */
  lemma ActionIsLocal(doc: DocId, s: Session, t: nat)
    requires CanAct(s, t)
    ensures
      var s' := StepTask(doc, s, t);
      && s.blocks <= s'.blocks && |s'.tasks| == |s.tasks| + (if s.tasks[t].phase.Fetching? then 1 else 0)
      && s'.tasks[t] == s.tasks[t].(phase := s'.tasks[t].phase) && !s'.tasks[t].phase.Waiting?
      && (s.tasks[t].phase.Waiting? || s.tasks[t].node in s.blocks ==> s'.tasks[t].node in s'.blocks)
      && forall u :: 0 <= u < |s.tasks| && u != t ==> s'.tasks[u] == s.tasks[u]
  {
    var task := s.tasks[t];
    if task.phase.Scanning? && (task.phase.i < |task.node.links| || task.phase.look == BecomeHead) {
      ScanIsLocal(doc, s, t, task.phase.i, task.phase.kids, task.phase.look);
    }
  }

  lemma TasksKept(doc: DocId, root: Node, s: Session, t: nat)
    requires AllWellNamed(doc, root) && TasksRight(root, s) && CanAct(s, t) && HeadsStored(s.heads, s.blocks)
    ensures TasksRight(root, StepTask(doc, s, t))
  {
    var s' := StepTask(doc, s, t);
    ActionIsLocal(doc, s, t);
    forall u | 0 <= u < |s'.tasks| ensures TaskRight(root, s', s'.tasks[u]) {
      if u == |s.tasks| {
        NewTaskRight(doc, root, s, t);
      } else if u == t {
        ActingTaskKept(doc, root, s, t);
      } else {
        assert TaskRight(root, s, s.tasks[u]);
      }
    }
  }

  lemma HeadsKept(doc: DocId, root: Node, s: Session, t: nat)
    requires CanAct(s, t) && TaskRight(root, s, s.tasks[t]) && HeadsStored(s.heads, s.blocks)
    ensures HeadsStored(StepTask(doc, s, t).heads, StepTask(doc, s, t).blocks)
  {
  }

  /** A block is merged, or some task is merging it. */
  lemma BlockKept(doc: DocId, s: Session, t: nat, b: Node)
    requires CanAct(s, t) && b in StepTask(doc, s, t).blocks && (b in s.blocks ==> b in s.merged || IsMerging(s, b))
    ensures b in StepTask(doc, s, t).merged || IsMerging(StepTask(doc, s, t), b)
  {
    var s' := StepTask(doc, s, t);
    ActionIsLocal(doc, s, t);
    if b !in s.blocks {
      assert s'.tasks[t].node == b && s'.tasks[t].phase.Merging?;
    } else if b !in s.merged {
      var u :| 0 <= u < |s.tasks| && s.tasks[u].node == b && s.tasks[u].phase.Merging?;
      if u != t {
        assert s'.tasks[u] == s.tasks[u];
      }
    }
  }

  lemma StoresKept(doc: DocId, root: Node, start: set<Node>, s: Session, t: nat)
    requires TasksRight(root, s) && StoresRight(root, start, s) && CanAct(s, t)
    ensures StoresRight(root, start, StepTask(doc, s, t))
  {
    var s' := StepTask(doc, s, t);
    assert TaskRight(root, s, s.tasks[t]);
    HeadsKept(doc, root, s, t);
    ActionIsLocal(doc, s, t);
    forall b | b in s'.blocks ensures b in s'.merged || IsMerging(s', b) {
      BlockKept(doc, s, t, b);
    }
  }

  /** What the acting task owned it still owns, or has handed to the job it spawned. */
  lemma ActingStillOwns(doc: DocId, s: Session, t: nat, c: Node)
    requires CanAct(s, t) && Owns(t, s.tasks[t], c) && c in StepTask(doc, s, t).reserved
    ensures exists u :: 0 <= u < |StepTask(doc, s, t).tasks| && Owns(u, StepTask(doc, s, t).tasks[u], c)
  {
    var s' := StepTask(doc, s, t);
    ActionIsLocal(doc, s, t);
    if s.tasks[t].phase.Fetching? && s.tasks[t].phase.c == c {
      assert Owns(|s.tasks|, s'.tasks[|s.tasks|], c);
    } else {
      assert Owns(t, s'.tasks[t], c);
    }
  }

  /** A node is reserved by a job that is going to fetch it. */
  lemma ReservingOwns(doc: DocId, s: Session, t: nat, c: Node)
    requires CanAct(s, t) && c in StepTask(doc, s, t).reserved && c !in s.reserved
    ensures t < |StepTask(doc, s, t).tasks| && Owns(t, StepTask(doc, s, t).tasks[t], c)
  {
    ActionIsLocal(doc, s, t);
  }

  lemma ReservationsKept(doc: DocId, root: Node, s: Session, t: nat)
    requires ReservationsRight(root, s) && CanAct(s, t)
    ensures ReservationsRight(root, StepTask(doc, s, t))
  {
    var s' := StepTask(doc, s, t);
    ActionIsLocal(doc, s, t);
    forall c | c in s'.reserved && c != root
      ensures exists u :: 0 <= u < |s'.tasks| && Owns(u, s'.tasks[u], c)
    {
      if c !in s.reserved {
        ReservingOwns(doc, s, t, c);
      } else {
        var u :| 0 <= u < |s.tasks| && Owns(u, s.tasks[u], c);
        if u == t {
          ActingStillOwns(doc, s, t, c);
        } else {
          assert Owns(u, s'.tasks[u], c);
        }
      }
    }
  }

  lemma ScanKeepsCover(doc: DocId, s: Session, t: nat, b: Node, c: Node)
    requires CanAct(s, t) && s.tasks[t].phase.Scanning? && Covers(s.tasks[t], b, c)
    requires LookRight(s.blocks, s.tasks[t].node, s.tasks[t].phase.i, s.tasks[t].phase.look)
    ensures Covered(StepTask(doc, s, t), b, c)
  {
    var s', i, kids := StepTask(doc, s, t), s.tasks[t].phase.i, s.tasks[t].phase.kids;
    if c !in s'.blocks {
      assert c in kids ==> c in Kids(s'.tasks[t].phase);
      assert Covers(s'.tasks[t], b, c);
    }
  }

  lemma SpawnKeepsCover(doc: DocId, root: Node, s: Session, t: nat, b: Node, c: Node)
    requires CanAct(s, t) && s.tasks[t].phase.Spawning? && Covers(s.tasks[t], b, c)
    requires TasksRight(root, s) && ReservationsRight(root, s)
    ensures Covered(StepTask(doc, s, t), b, c)
  {
    var s', kids := StepTask(doc, s, t), s.tasks[t].phase.kids;
    ActionIsLocal(doc, s, t);
    assert kids == [kids[0]] + kids[1..];
    if kids[0] == c && c in s.reserved {
      ReservedIsCovered(root, s, t, b, c);
      if c !in s.blocks {
        var u :| 0 <= u < |s.tasks| && u != t && Covers(s.tasks[u], b, c);
        assert Covers(s'.tasks[u], b, c);
      }
    } else {
      assert Covers(s'.tasks[t], b, c);
    }
  }

  /** What the acting job covered is stored, or still covered by it or by one that it adds. */
  lemma OwnCoverKept(doc: DocId, root: Node, s: Session, t: nat, b: Node, l: Link)
    requires CanAct(s, t) && TasksRight(root, s) && ReservationsRight(root, s) && HeadsStored(s.heads, s.blocks)
    requires Covers(s.tasks[t], b, l.cid) && l in b.links
    ensures Covered(StepTask(doc, s, t), b, l.cid)
  {
    var s' := StepTask(doc, s, t);
    match s.tasks[t].phase
    case Scanning(_, _, _) =>
      assert TaskRight(root, s, s.tasks[t]);
      ScanKeepsCover(doc, s, t, b, l.cid);
    case Spawning(_) => SpawnKeepsCover(doc, root, s, t, b, l.cid);
    case Fetching(_, _) => assert Covers(s'.tasks[t], b, l.cid) || Covers(s'.tasks[|s.tasks|], b, l.cid);
    case Merging(_) => assert Covers(s'.tasks[t], b, l.cid);
    case _ =>
  }

  /** A child that is skipped because it is reserved is stored already, or about to be by another task. */
  lemma ReservedIsCovered(root: Node, s: Session, t: nat, b: Node, c: Node)
    requires CanAct(s, t) && TasksRight(root, s) && ReservationsRight(root, s)
    requires s.tasks[t].phase.Spawning? && c in s.reserved
    ensures c in s.blocks || exists u :: 0 <= u < |s.tasks| && u != t && Covers(s.tasks[u], b, c)
  {
    if c == root {
      assert TaskRight(root, s, s.tasks[0]);
    } else {
      var u :| 0 <= u < |s.tasks| && Owns(u, s.tasks[u], c);
      assert TaskRight(root, s, s.tasks[u]);
      assert c in s.blocks || Covers(s.tasks[u], b, c);
    }
  }

  lemma CoverKept(doc: DocId, root: Node, s: Session, t: nat)
    requires CanAct(s, t) && TasksRight(root, s) && ReservationsRight(root, s) && HeadsStored(s.heads, s.blocks)
    requires LinksCovered(s)
    ensures LinksCovered(StepTask(doc, s, t))
  {
    var s' := StepTask(doc, s, t);
    ActionIsLocal(doc, s, t);
    forall b, l | b in s'.blocks && l in b.links ensures Covered(s', b, l.cid) {
      if b !in s.blocks {
        assert Covers(s'.tasks[t], b, l.cid);
      } else if l.cid !in s.blocks {
        assert Covered(s, b, l.cid);
        var u :| 0 <= u < |s.tasks| && Covers(s.tasks[u], b, l.cid);
        if u == t {
          OwnCoverKept(doc, root, s, t, b, l);
        } else {
          assert Covers(s'.tasks[u], b, l.cid);
        }
      }
    }
  }

  lemma ActionKeepsInv(doc: DocId, root: Node, start: set<Node>, s: Session, t: nat)
    requires AllWellNamed(doc, root) && Inv(root, start, s) && CanAct(s, t)
    ensures Inv(root, start, StepTask(doc, s, t))
  {
    TasksKept(doc, root, s, t);
    CounterCountsJobs(doc, s, t);
    StoresKept(doc, root, start, s, t);
    ReservationsKept(doc, root, s, t);
    CoverKept(doc, root, s, t);
  }

  lemma {:induction false} RunKeepsInv(doc: DocId, root: Node, start: set<Node>, s: Session, schedule: seq<nat>)
    requires AllWellNamed(doc, root) && Inv(root, start, s) && IsSchedule(doc, s, schedule)
    ensures Inv(root, start, RunSession(doc, s, schedule))
    decreases |schedule|
  {
    if schedule != [] {
      ActionKeepsInv(doc, root, start, s, schedule[0]);
      RunKeepsInv(doc, root, start, StepTask(doc, s, schedule[0]), schedule[1..]);
    }
  }

  lemma StartHasInv(doc: DocId, root: Node, s: Session)
    requires IsStart(doc, root, s)
    ensures Inv(root, s.blocks, s)
  {
    assert SumOf(s.tasks[1..], Live) == 0;
  }

  // ---------- The main results ----------

  /** The push is done with its own children, and the wait group lets it go on. */
  ghost predicate IsComplete(s: Session) {
    |s.tasks| > 0 && s.tasks[0].phase == Finished && s.counter == 0
  }

  /** The counter is zero exactly when every job has finished. */
  lemma ZeroMeansFinished(root: Node, start: set<Node>, s: Session)
    requires Inv(root, start, s) && s.counter == 0
    ensures forall t :: 0 < t < |s.tasks| ==> s.tasks[t].phase == Finished
  {
    SumZero(s.tasks[1..], Live);
    forall t | 0 < t < |s.tasks| ensures s.tasks[t].phase == Finished {
      assert s.tasks[t] == s.tasks[1..][t - 1];
    }
  }

  lemma FinishedCoversNothing(s: Session, b: Node, c: Node)
    requires Covered(s, b, c) && forall t :: 0 <= t < |s.tasks| ==> s.tasks[t].phase == Finished
    ensures c in s.blocks
  {
  }

  lemma FinishedIsClosed(root: Node, start: set<Node>, s: Session)
    requires Inv(root, start, s) && forall t :: 0 <= t < |s.tasks| ==> s.tasks[t].phase == Finished
    ensures LinkClosed(s.blocks) && s.merged == s.blocks && s.blocks == start + Closure(root)
  {
    forall b, l | b in s.blocks && l in b.links ensures l.cid in s.blocks {
      FinishedCoversNothing(s, b, l.cid);
    }
    assert TaskRight(root, s, s.tasks[0]);
    ClosureWithin(root, s.blocks);
  }

  /**
   In every interleaving, once the push is done with its own children and the wait group is at zero, no job
   is outstanding, exactly the blocks below the pushed one have been added, all of them have been merged, and the
   store is link-closed again.
   */
  lemma SyncClosure(doc: DocId, root: Node, s0: Session, schedule: seq<nat>)
    requires IsStart(doc, root, s0) && IsSchedule(doc, s0, schedule)
    ensures
      var s := RunSession(doc, s0, schedule);
      && |s.tasks| > 0
      && (IsComplete(s) ==>
            && (forall t :: 0 <= t < |s.tasks| ==> s.tasks[t].phase == Finished)
            && s.blocks == s0.blocks + Closure(root)
            && LinkClosed(s.blocks) && s.merged == s.blocks)
  {
    StartHasInv(doc, root, s0);
    RunKeepsInv(doc, root, s0.blocks, s0, schedule);
    var s := RunSession(doc, s0, schedule);
    if IsComplete(s) {
      ZeroMeansFinished(root, s0.blocks, s);
      FinishedIsClosed(root, s0.blocks, s);
    }
  }
}
