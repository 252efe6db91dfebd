/** Every sync session ends, whatever the interleaving: no schedule is longer than a bound on the work below it. */
module SyncEnds {
  import opened Crdt
  import opened Clock
  import opened Merging
  import opened MergeEnds
  import opened Sync
  import opened SyncSafety

  // ---------- The work that is left ----------

  /** The number of actions that a job for `c`, and every job it can lead to, may take. */
  function Cost(c: Node, n: nat): nat
    decreases c, 1
  {
    2 * n + 10 + LinkCost(c.links, n)
  }

  function LinkCost(links: seq<Link>, n: nat): nat
    decreases links, 0
  {
    if links == [] then 0 else 5 + Cost(links[0].cid, n) + LinkCost(links[1..], n)
  }

  function KidCost(kids: seq<Node>, n: nat): nat {
    if kids == [] then 0 else 2 + Cost(kids[0], n) + KidCost(kids[1..], n)
  }

  function LookCost(look: Look): nat {
    match look
    case IsHead => 2
    case BecomeHead => 3
    case _ => 1
  }

  function Remaining(task: Task, n: nat): nat {
    match task.phase
    case Waiting => Cost(task.node, n)
    case Merging(at) => Rank(at, n) + 4 + LinkCost(task.node.links, n)
    case Scanning(i, kids, look) =>
      LookCost(look) + (if i <= |task.node.links| then LinkCost(task.node.links[i..], n) else 0) + KidCost(kids, n)
    case Spawning(kids) => 1 + KidCost(kids, n)
    case Fetching(c, kids) => 2 + Cost(c, n) + KidCost(kids, n)
    case Finished => 0
  }

  lemma {:induction false} KidCostAppend(kids: seq<Node>, c: Node, n: nat)
    ensures KidCost(kids + [c], n) == KidCost(kids, n) + 2 + Cost(c, n)
  {
    if kids == [] {
      assert [c][1..] == [];
    } else {
      assert (kids + [c])[1..] == kids[1..] + [c];
      KidCostAppend(kids[1..], c, n);
    }
  }

  // ---------- The session ----------

  /** The fields of the blocks below the root, and those that already have a value. */
  ghost function FieldsOf(doc: DocId, root: Node, data: Data): set<string> {
    (set m | m in Closure(root) :: FieldOf(m.delta)) + ValuesOf(data, doc).Keys
  }

  ghost predicate TaskWithin(doc: DocId, task: Task, fields: set<string>) {
    && (task.node.delta.RegisterDelta? ==> task.field in fields)
    && OnTrack(JobOf(task)) && PointWithin(doc, JobOf(task), fields)
  }

  ghost predicate Within(doc: DocId, s: Session, fields: set<string>) {
    && ValuesWithin(s.data, doc, fields)
    && forall t :: 0 <= t < |s.tasks| ==> TaskWithin(doc, s.tasks[t], fields)
  }

  lemma MergeCosts(doc: DocId, s: Session, t: nat, fields: set<string>)
    requires CanAct(s, t) && s.tasks[t].phase.Merging? && Within(doc, s, fields)
    ensures Remaining(StepTask(doc, s, t).tasks[t], |fields|) < Remaining(s.tasks[t], |fields|)
  {
    var task := s.tasks[t];
    assert TaskWithin(doc, task, fields);
    if task.phase.at == Ended {
      assert task.node.links[0..] == task.node.links;
    } else {
      AccessLowersRank(s.data, doc, JobOf(task), fields);
    }
  }

  lemma ScanCosts(doc: DocId, s: Session, t: nat, n: nat)
    requires CanAct(s, t) && s.tasks[t].phase.Scanning?
    requires LookRight(s.blocks, s.tasks[t].node, s.tasks[t].phase.i, s.tasks[t].phase.look)
    ensures Remaining(StepTask(doc, s, t).tasks[t], n) < Remaining(s.tasks[t], n)
  {
    var links, i, kids := s.tasks[t].node.links, s.tasks[t].phase.i, s.tasks[t].phase.kids;
    if i < |links| {
      assert links[i..][1..] == links[i + 1..];
      KidCostAppend(kids, links[i].cid, n);
    }
  }

  /** Every action lowers what its task, and the one it may add, have left to do. */
  lemma ActionCosts(doc: DocId, root: Node, s: Session, t: nat, fields: set<string>)
    requires CanAct(s, t) && Within(doc, s, fields) && TaskRight(root, s, s.tasks[t])
    ensures
      var s' := StepTask(doc, s, t);
      var added := if s.tasks[t].phase.Fetching? then Remaining(s'.tasks[|s.tasks|], |fields|) else 0;
      Remaining(s'.tasks[t], |fields|) + added < Remaining(s.tasks[t], |fields|)
  {
    match s.tasks[t].phase
    case Merging(_) => MergeCosts(doc, s, t, fields);
    case Scanning(_, _, _) => ScanCosts(doc, s, t, |fields|);
    case _ =>
  }

  lemma ActingWithin(doc: DocId, s: Session, t: nat, fields: set<string>)
    requires CanAct(s, t) && Within(doc, s, fields)
    ensures ValuesWithin(StepTask(doc, s, t).data, doc, fields)
    ensures TaskWithin(doc, StepTask(doc, s, t).tasks[t], fields)
  {
    var task := s.tasks[t];
    assert TaskWithin(doc, task, fields);
    if task.phase.Merging? && task.phase.at != Ended {
      AccessWithin(s.data, doc, JobOf(task), fields);
    } else {
      ActionIsLocal(doc, s, t);
    }
  }

  lemma ActionKeepsWithin(doc: DocId, root: Node, s: Session, t: nat, fields: set<string>)
    requires CanAct(s, t) && Within(doc, s, fields) && AllWellNamed(doc, root) && TasksRight(root, s)
    requires HeadsStored(s.heads, s.blocks) && forall m :: m in Closure(root) ==> FieldOf(m.delta) in fields
    ensures Within(doc, StepTask(doc, s, t), fields)
  {
    var s' := StepTask(doc, s, t);
    ActionIsLocal(doc, s, t);
    ActingWithin(doc, s, t, fields);
    forall u | 0 <= u < |s'.tasks| ensures TaskWithin(doc, s'.tasks[u], fields) {
      if u == |s.tasks| {
        assert TaskRight(root, s, s.tasks[t]);
        NewTaskRight(doc, root, s, t);
      } else if u != t {
        assert TaskWithin(doc, s.tasks[u], fields);
      }
    }
  }

  function Left(n: nat): Task -> nat { (task: Task) => Remaining(task, n) }

  lemma TotalFalls(doc: DocId, root: Node, s: Session, t: nat, fields: set<string>)
    requires CanAct(s, t) && Within(doc, s, fields) && TaskRight(root, s, s.tasks[t])
    ensures SumOf(StepTask(doc, s, t).tasks, Left(|fields|)) < SumOf(s.tasks, Left(|fields|))
  {
    var s', f := StepTask(doc, s, t), Left(|fields|);
    ActionIsLocal(doc, s, t);
    ActionCosts(doc, root, s, t, fields);
    SumUpdate(s.tasks, f, t, s'.tasks[t]);
    var same := s.tasks[t := s'.tasks[t]];
    if s.tasks[t].phase.Fetching? {
      assert s'.tasks[..|s.tasks|] == same;
    } else {
      assert s'.tasks == same;
    }
  }

  lemma {:induction false} RunIsBounded(doc: DocId, root: Node, start: set<Node>, s: Session, schedule: seq<nat>,
                                        fields: set<string>)
    requires IsSchedule(doc, s, schedule) && Within(doc, s, fields) && AllWellNamed(doc, root) && Inv(root, start, s)
    requires forall m :: m in Closure(root) ==> FieldOf(m.delta) in fields
    ensures |schedule| + SumOf(RunSession(doc, s, schedule).tasks, Left(|fields|)) <= SumOf(s.tasks, Left(|fields|))
    decreases |schedule|
  {
    if schedule != [] {
      var s' := StepTask(doc, s, schedule[0]);
      assert TaskRight(root, s, s.tasks[schedule[0]]);
      TotalFalls(doc, root, s, schedule[0], fields);
      ActionKeepsWithin(doc, root, s, schedule[0], fields);
      ActionKeepsInv(doc, root, start, s, schedule[0]);
      RunIsBounded(doc, root, start, s', schedule[1..], fields);
    }
  }

  /** No schedule is longer than the cost of the pushed block, and one that cannot go on is complete. */
  lemma SyncTerminates(doc: DocId, root: Node, s0: Session, schedule: seq<nat>)
    requires IsStart(doc, root, s0) && IsSchedule(doc, s0, schedule)
    ensures |schedule| <= Cost(root, |FieldsOf(doc, root, s0.data)|)
    ensures
      var s := RunSession(doc, s0, schedule);
      (forall t :: !CanAct(s, t)) ==> IsComplete(s)
  {
    StartWithin(doc, root, s0);
    StartHasInv(doc, root, s0);
    RunIsBounded(doc, root, s0.blocks, s0, schedule, FieldsOf(doc, root, s0.data));
    RunKeepsInv(doc, root, s0.blocks, s0, schedule);
    if forall t :: !CanAct(RunSession(doc, s0, schedule), t) {
      StuckIsComplete(root, s0.blocks, RunSession(doc, s0, schedule));
    }
  }

  lemma StartWithin(doc: DocId, root: Node, s: Session)
    requires IsStart(doc, root, s)
    ensures
      var fields := FieldsOf(doc, root, s.data);
      && Within(doc, s, fields) && (forall m :: m in Closure(root) ==> FieldOf(m.delta) in fields)
      && SumOf(s.tasks, Left(|fields|)) == Cost(root, |fields|)
  {
    ValuesOfHas(s.data, doc);
    assert s.tasks[..0] == [];
  }

  lemma StuckIsComplete(root: Node, start: set<Node>, s: Session)
    requires Inv(root, start, s) && forall t :: !CanAct(s, t)
    ensures IsComplete(s)
  {
    forall t | 0 <= t < |s.tasks| ensures s.tasks[t].phase == Finished { assert !CanAct(s, t); }
    AllFinishedSum(s.tasks[1..]);
  }

  lemma {:induction false} AllFinishedSum(ts: seq<Task>)
    requires forall i :: 0 <= i < |ts| ==> ts[i].phase == Finished
    ensures SumOf(ts, Live) == 0
  {
    if ts != [] {
      AllFinishedSum(ts[..|ts| - 1]);
    }
  }
}
