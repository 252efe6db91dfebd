/**
 What the data is once a sync session is complete. Its jobs merge on one transaction, access by access, so the answer
 depends on the schedule: it is right if no two conflicting merges overlap.
 */
module SyncData {
  import opened Crdt
  import opened Clock
  import opened Merging
  import opened Replicas
  import opened Sync
  import opened SyncSafety

  // ---------- Schedules without overlapping conflicts ----------

  function Merges(tasks: seq<Task>): (js: seq<Job>)
    ensures |js| == |tasks| && forall i :: 0 <= i < |js| ==> js[i] == JobOf(tasks[i])
  {
    if tasks == [] then [] else Merges(tasks[..|tasks| - 1]) + [JobOf(tasks[|tasks| - 1])]
  }

  /** Between the first and the last access of a merge no other one merges into its register, and none deletes. */
  ghost predicate IsIsolated(doc: DocId, s: Session, schedule: seq<nat>)
    requires IsSchedule(doc, s, schedule)
    decreases |schedule|
  {
    && NoClash(Merges(s.tasks))
    && (schedule != [] ==> IsIsolated(doc, StepTask(doc, s, schedule[0]), schedule[1..]))
  }

  // ---------- The invariant ----------

  ghost predicate Counts(task: Task, d: Delta) {
    task.phase.Merging? && Decided(JobOf(task)) && task.node.delta == d
  }

  /** `ds` is the deltas of the merged blocks and of the merges that are decided. */
  ghost predicate Accounts(s: Session, ds: set<Delta>) {
    forall d :: d in ds <==> d in Deltas(s.merged) || exists t :: 0 <= t < |s.tasks| && Counts(s.tasks[t], d)
  }

  /** The data is on the way to `goal`, which the accounted deltas stand for. */
  ghost predicate DataInv(doc: DocId, s: Session, ds: set<Delta>, goal: Data) {
    && WellTyped(s.data) && AllRight(doc, Merges(s.tasks)) && Finishes(s.data, doc, Merges(s.tasks), goal)
    && Accounts(s, ds) && AllValid(ds) && Represents(goal, ds)
  }

  lemma GoalIsShaped(goal: Data, ds: set<Delta>, doc: DocId)
    requires Represents(goal, ds)
    ensures WellTyped(goal) && MarkerShape(goal, doc)
  {
    assert MarkerRight(goal, ds, doc);
    forall f ensures Decodable(goal, f) { assert RegisterRight(goal, ds, f); }
  }

  lemma MergesOfStep(s: Session, s': Session, t: nat)
    requires t < |s.tasks| <= |s'.tasks| <= |s.tasks| + 1
    requires forall u :: 0 <= u < |s.tasks| && u != t ==> s'.tasks[u] == s.tasks[u]
    ensures
      var js := Merges(s.tasks)[t := JobOf(s'.tasks[t])];
      Merges(s'.tasks) == if |s'.tasks| == |s.tasks| then js else js + [JobOf(s'.tasks[|s.tasks|])]
  {
  }

  /** A merge that starts, or one that is over, changes nothing. */
  lemma FinishesWith(data: Data, doc: DocId, js: seq<Job>, i: nat, j: Job, goal: Data)
    requires i < |js| && Finishes(data, doc, js, goal) && !Open(js[i]) && !Open(j)
    requires RightJob(doc, js[i]) && RightJob(doc, j)
    ensures Finishes(data, doc, js[i := j], goal)
  {
    if Ahead(data, doc, js, goal) {
      ReadKeepsAhead(data, doc, js, i, goal, j);
    } else {
      var a: nat :| OneDelete(data, doc, js, a, goal);
      assert OneDelete(data, doc, js[i := j], a, goal);
    }
  }

  lemma FinishesWithMore(data: Data, doc: DocId, js: seq<Job>, j: Job, goal: Data)
    requires Finishes(data, doc, js, goal) && j.at == Ended
    ensures Finishes(data, doc, js + [j], goal)
  {
    if Ahead(data, doc, js, goal) {
      forall k | Pending(doc, js, k) ensures Pending(doc, js + [j], k) {
        var a :| 0 <= a < |js| && js[a].at.PutPriority? && k == PriorityKeyOf(FieldKey(doc, js[a].field));
        assert (js + [j])[a] == js[a];
      }
      assert Ahead(data, doc, js + [j], goal);
    } else {
      var a: nat :| OneDelete(data, doc, js, a, goal);
      assert OneDelete(data, doc, js + [j], a, goal);
    }
  }

  // ---------- Every action keeps it ----------

  /** What a task counts is what it counted, and its delta if this action decides its merge. */
  lemma AccountsStep(s: Session, s': Session, t: nat, ds: set<Delta>, ds': set<Delta>)
    requires t < |s.tasks| <= |s'.tasks| <= |s.tasks| + 1 && Accounts(s, ds) && s.merged <= s'.merged
    requires forall u :: 0 <= u < |s.tasks| && u != t ==> s'.tasks[u] == s.tasks[u]
    requires |s'.tasks| == |s.tasks| + 1 ==> !s'.tasks[|s.tasks|].phase.Merging?
    requires forall d :: d in ds' <==> d in ds || d in Deltas(s'.merged) || Counts(s'.tasks[t], d)
    requires forall d :: Counts(s.tasks[t], d) ==> Counts(s'.tasks[t], d) || d in Deltas(s'.merged)
    ensures Accounts(s', ds')
  {
    forall d ensures d in ds' <==>
                     d in Deltas(s'.merged) || exists u :: 0 <= u < |s'.tasks| && Counts(s'.tasks[u], d)
    {
      if d in ds && d !in Deltas(s.merged) {
        var u :| 0 <= u < |s.tasks| && Counts(s.tasks[u], d);
        assert u != t ==> Counts(s'.tasks[u], d);
      }
      if u :| 0 <= u < |s'.tasks| && Counts(s'.tasks[u], d) {
        assert u != t ==> Counts(s.tasks[u], d);
      }
    }
  }

  /** The deltas accounted for once task t has made its access. */
  ghost function Taken(doc: DocId, s: Session, t: nat, ds: set<Delta>): set<Delta>
    requires t < |s.tasks|
  {
    if Decided(Access(s.data, doc, JobOf(s.tasks[t])).1) then ds + {s.tasks[t].node.delta} else ds
  }

  lemma AccessAccounts(doc: DocId, s: Session, t: nat, ds: set<Delta>)
    requires CanAct(s, t) && s.tasks[t].phase.Merging? && s.tasks[t].phase.at != Ended
    requires RightJob(doc, JobOf(s.tasks[t])) && Accounts(s, ds)
    ensures Accounts(StepTask(doc, s, t), Taken(doc, s, t, ds))
  {
    var j := JobOf(s.tasks[t]);
    var j' := Access(s.data, doc, j).1;
    AccessIsRight(s.data, doc, j);
    if Decided(j) {
      StaysDecided(s.data, doc, j);
    }
    var s' := StepTask(doc, s, t);
    assert JobOf(s'.tasks[t]) == j';
    AccountsStep(s, s', t, ds, Taken(doc, s, t, ds));
  }

  lemma GoalRepresents(doc: DocId, s: Session, t: nat, ds: set<Delta>, goal: Data)
    requires t < |s.tasks| && s.tasks[t].phase.Merging? && s.tasks[t].node.delta.Valid()
    requires Accounts(s, ds) && AllValid(ds) && Represents(goal, ds)
    ensures Represents(Advanced(goal, doc, s.data, JobOf(s.tasks[t])), Taken(doc, s, t, ds))
    ensures AllValid(Taken(doc, s, t, ds))
  {
    var j := JobOf(s.tasks[t]);
    if Decided(j) {
      assert Counts(s.tasks[t], j.delta);
      assert Taken(doc, s, t, ds) == ds;
    } else {
      MergeStep(goal, ds, j.delta);
    }
  }

  lemma AccessKeepsData(doc: DocId, s: Session, t: nat, ds: set<Delta>, goal: Data)
    requires CanAct(s, t) && s.tasks[t].phase.Merging? && s.tasks[t].phase.at != Ended && DataInv(doc, s, ds, goal)
    requires NoClash(Merges(s.tasks)) && NoClash(Merges(StepTask(doc, s, t).tasks))
    ensures DataInv(doc, StepTask(doc, s, t), Taken(doc, s, t, ds), Advanced(goal, doc, s.data, JobOf(s.tasks[t])))
  {
    var s', j, js := StepTask(doc, s, t), JobOf(s.tasks[t]), Merges(s.tasks);
    var j' := Access(s.data, doc, j).1;
    assert js[t] == j && RightJob(doc, j);
    GoalIsShaped(goal, ds, doc);
    AccessIsRight(s.data, doc, j);
    MergesOfStep(s, s', t);
    assert Merges(s'.tasks) == js[t := j'];
    AccessKeepsFinishing(s.data, doc, js, t, goal);
    AccessWellTyped(s.data, doc, js, t, goal);
    AccessAccounts(doc, s, t, ds);
    GoalRepresents(doc, s, t, ds, goal);
  }

  /** A task whose block is below the root merges into the CRDT of its delta. */
  lemma TaskMergesRight(doc: DocId, root: Node, s: Session, task: Task)
    requires AllWellNamed(doc, root) && TaskRight(root, s, task) && OnTrack(JobOf(task))
    ensures RightJob(doc, JobOf(task))
  {
    assert WellNamed(doc, task.node);
  }

  /** Apart from accesses, an action of a task leaves it with no merge, or with one that starts. */
  lemma OtherStarts(doc: DocId, s: Session, t: nat)
    requires CanAct(s, t) && !(s.tasks[t].phase.Merging? && s.tasks[t].phase.at != Ended)
    ensures
      var s' := StepTask(doc, s, t);
      var j := JobOf(s'.tasks[t]);
      && s'.data == s.data && !Open(JobOf(s.tasks[t])) && (j.at == Ended || j.at == First(j.field, j.delta))
      && (|s'.tasks| > |s.tasks| ==> !s'.tasks[|s.tasks|].phase.Merging?)
  {
    ActionIsLocal(doc, s, t);
  }

  lemma FirstIsOnTrack(j: Job)
    requires j.at == Ended || j.at == First(j.field, j.delta)
    ensures OnTrack(j) && !Open(j)
  {
  }

  lemma OtherIsRight(doc: DocId, root: Node, s: Session, t: nat)
    requires CanAct(s, t) && !(s.tasks[t].phase.Merging? && s.tasks[t].phase.at != Ended)
    requires AllWellNamed(doc, root) && TasksRight(root, s) && HeadsStored(s.heads, s.blocks)
    ensures
      var s' := StepTask(doc, s, t);
      && RightJob(doc, JobOf(s'.tasks[t])) && !Open(JobOf(s'.tasks[t]))
      && (|s'.tasks| > |s.tasks| ==>
            RightJob(doc, JobOf(s'.tasks[|s.tasks|])) && JobOf(s'.tasks[|s.tasks|]).at == Ended)
  {
    var s' := StepTask(doc, s, t);
    OtherStarts(doc, s, t);
    FirstIsOnTrack(JobOf(s'.tasks[t]));
    TasksKept(doc, root, s, t);
    TaskMergesRight(doc, root, s', s'.tasks[t]);
    if |s'.tasks| > |s.tasks| {
      TaskMergesRight(doc, root, s', s'.tasks[|s.tasks|]);
    }
  }

  lemma OtherKeepsMerges(doc: DocId, root: Node, s: Session, t: nat, goal: Data)
    requires CanAct(s, t) && !(s.tasks[t].phase.Merging? && s.tasks[t].phase.at != Ended)
    requires AllWellNamed(doc, root) && TasksRight(root, s) && HeadsStored(s.heads, s.blocks)
    requires AllRight(doc, Merges(s.tasks)) && Finishes(s.data, doc, Merges(s.tasks), goal)
    ensures AllRight(doc, Merges(StepTask(doc, s, t).tasks))
    ensures Finishes(s.data, doc, Merges(StepTask(doc, s, t).tasks), goal)
  {
    var s', js := StepTask(doc, s, t), Merges(s.tasks);
    ActionIsLocal(doc, s, t);
    MergesOfStep(s, s', t);
    OtherIsRight(doc, root, s, t);
    assert js[t] == JobOf(s.tasks[t]);
    FinishesWith(s.data, doc, js, t, JobOf(s'.tasks[t]), goal);
    if |s'.tasks| > |s.tasks| {
      FinishesWithMore(s.data, doc, js[t := JobOf(s'.tasks[t])], JobOf(s'.tasks[|s.tasks|]), goal);
    }
  }

  /** An action other than an access of a merge leaves the data, and moves a merge that is done into the merged. */
  lemma OtherIsMerged(doc: DocId, s: Session, t: nat)
    requires CanAct(s, t) && !(s.tasks[t].phase.Merging? && s.tasks[t].phase.at != Ended)
    ensures StepTask(doc, s, t).data == s.data
    ensures StepTask(doc, s, t).merged == s.merged + if s.tasks[t].phase.Merging? then {s.tasks[t].node} else {}
  {
    var task := s.tasks[t];
    if task.phase.Scanning? && (task.phase.i < |task.node.links| || task.phase.look == BecomeHead) {
      ScanIsLocal(doc, s, t, task.phase.i, task.phase.kids, task.phase.look);
    }
  }

  /** A merge that starts is not decided. */
  lemma OtherMergesNothingYet(doc: DocId, root: Node, s: Session, t: nat)
    requires CanAct(s, t) && !(s.tasks[t].phase.Merging? && s.tasks[t].phase.at != Ended)
    requires WellNamed(doc, s.tasks[t].node) && TaskRight(root, s, s.tasks[t])
    ensures StepTask(doc, s, t).tasks[t].phase.Merging? ==> !Decided(JobOf(StepTask(doc, s, t).tasks[t]))
  {
    var task := s.tasks[t];
    if task.phase.Scanning? && (task.phase.i < |task.node.links| || task.phase.look == BecomeHead) {
      ScanIsLocal(doc, s, t, task.phase.i, task.phase.kids, task.phase.look);
    }
  }

  lemma OtherCounts(doc: DocId, root: Node, s: Session, t: nat, d: Delta)
    requires CanAct(s, t) && !(s.tasks[t].phase.Merging? && s.tasks[t].phase.at != Ended)
    requires WellNamed(doc, s.tasks[t].node) && TaskRight(root, s, s.tasks[t])
    ensures !Counts(StepTask(doc, s, t).tasks[t], d)
    ensures Counts(s.tasks[t], d) ==> d in Deltas(StepTask(doc, s, t).merged)
    ensures d in Deltas(StepTask(doc, s, t).merged) ==> d in Deltas(s.merged) || Counts(s.tasks[t], d)
  {
    ActionIsLocal(doc, s, t);
    OtherIsMerged(doc, s, t);
    OtherMergesNothingYet(doc, root, s, t);
  }

  lemma OtherAccounts(doc: DocId, root: Node, s: Session, t: nat, ds: set<Delta>)
    requires CanAct(s, t) && !(s.tasks[t].phase.Merging? && s.tasks[t].phase.at != Ended) && Accounts(s, ds)
    requires AllWellNamed(doc, root) && TaskRight(root, s, s.tasks[t])
    ensures Accounts(StepTask(doc, s, t), ds) && StepTask(doc, s, t).data == s.data
  {
    ActionIsLocal(doc, s, t);
    OtherIsMerged(doc, s, t);
    assert WellNamed(doc, s.tasks[t].node);
    forall d
      ensures !Counts(StepTask(doc, s, t).tasks[t], d)
      ensures Counts(s.tasks[t], d) ==> d in Deltas(StepTask(doc, s, t).merged)
      ensures d in Deltas(StepTask(doc, s, t).merged) ==> d in Deltas(s.merged) || Counts(s.tasks[t], d)
    {
      OtherCounts(doc, root, s, t, d);
    }
    AccountsStep(s, StepTask(doc, s, t), t, ds, ds);
  }

  lemma ActionKeepsData(doc: DocId, root: Node, start: set<Node>, s: Session, t: nat, ds: set<Delta>, goal: Data)
    returns (ds': set<Delta>, goal': Data)
    requires AllWellNamed(doc, root) && Inv(root, start, s) && CanAct(s, t) && DataInv(doc, s, ds, goal)
    requires NoClash(Merges(s.tasks)) && NoClash(Merges(StepTask(doc, s, t).tasks))
    ensures DataInv(doc, StepTask(doc, s, t), ds', goal')
  {
    if s.tasks[t].phase.Merging? && s.tasks[t].phase.at != Ended {
      AccessKeepsData(doc, s, t, ds, goal);
      ds', goal' := Taken(doc, s, t, ds), Advanced(goal, doc, s.data, JobOf(s.tasks[t]));
    } else {
      assert TaskRight(root, s, s.tasks[t]);
      OtherKeepsMerges(doc, root, s, t, goal);
      OtherAccounts(doc, root, s, t, ds);
      ds', goal' := ds, goal;
    }
  }

  lemma {:induction false} IsolatedRun(doc: DocId, root: Node, start: set<Node>, s: Session, schedule: seq<nat>,
                                       ds: set<Delta>, goal: Data)
    returns (ds': set<Delta>, goal': Data)
    requires AllWellNamed(doc, root) && Inv(root, start, s) && DataInv(doc, s, ds, goal)
    requires IsSchedule(doc, s, schedule) && IsIsolated(doc, s, schedule)
    ensures DataInv(doc, RunSession(doc, s, schedule), ds', goal')
    decreases |schedule|
  {
    ds', goal' := ds, goal;
    if schedule != [] {
      var s1 := StepTask(doc, s, schedule[0]);
      assert IsIsolated(doc, s1, schedule[1..]);
      ds', goal' := ActionKeepsData(doc, root, start, s, schedule[0], ds, goal);
      ActionKeepsInv(doc, root, start, s, schedule[0]);
      ds', goal' := IsolatedRun(doc, root, start, s1, schedule[1..], ds', goal');
    }
  }

  lemma StartHasData(doc: DocId, root: Node, s: Session)
    requires IsStart(doc, root, s)
    ensures DataInv(doc, s, Deltas(s.merged), s.data)
  {
    GoalIsShaped(s.data, Deltas(s.merged), doc);
    assert WellNamed(doc, root);
    assert Ahead(s.data, doc, Merges(s.tasks), s.data);
  }

  /** With no merge under way, exactly the merged blocks count. */
  lemma FinishedData(doc: DocId, s: Session, ds: set<Delta>, goal: Data)
    requires DataInv(doc, s, ds, goal) && forall t :: 0 <= t < |s.tasks| ==> !s.tasks[t].phase.Merging?
    ensures Represents(s.data, Deltas(s.merged))
  {
    NothingOpen(s.data, doc, Merges(s.tasks), goal);
    assert forall d :: d in ds <==> d in Deltas(s.merged);
    assert ds == Deltas(s.merged);
  }

  // ---------- The main results ----------

  /** If no two conflicting merges overlap, a completed session leaves what all stored blocks together stand for. */
  lemma IsolatedSyncIsExact(doc: DocId, root: Node, s0: Session, schedule: seq<nat>)
    requires IsStart(doc, root, s0) && IsSchedule(doc, s0, schedule) && IsIsolated(doc, s0, schedule)
    requires IsComplete(RunSession(doc, s0, schedule))
    ensures Represents(RunSession(doc, s0, schedule).data, Deltas(s0.blocks + Closure(root)))
  {
    StartHasInv(doc, root, s0);
    StartHasData(doc, root, s0);
    var ds, goal := IsolatedRun(doc, root, s0.blocks, s0, schedule, Deltas(s0.merged), s0.data);
    SyncClosure(doc, root, s0, schedule);
    FinishedData(doc, RunSession(doc, s0, schedule), ds, goal);
  }

  /** All completed interleavings without such an overlap leave the same data. */
  lemma IsolatedSyncIsConfluent(doc: DocId, root: Node, s0: Session, a: seq<nat>, b: seq<nat>)
    requires IsStart(doc, root, s0) && IsSchedule(doc, s0, a) && IsSchedule(doc, s0, b)
    requires IsIsolated(doc, s0, a) && IsIsolated(doc, s0, b)
    requires IsComplete(RunSession(doc, s0, a)) && IsComplete(RunSession(doc, s0, b))
    ensures RunSession(doc, s0, a).data == RunSession(doc, s0, b).data
  {
    IsolatedSyncIsExact(doc, root, s0, a);
    IsolatedSyncIsExact(doc, root, s0, b);
    RepresentsUnique(RunSession(doc, s0, a).data, RunSession(doc, s0, b).data, Deltas(s0.blocks + Closure(root)));
  }
}
