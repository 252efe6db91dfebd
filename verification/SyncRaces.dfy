/**
 Pushes that can go wrong. If two of the blocks that a push brings can be kept waiting until all the others are done,
 and they race in the store that is then there, some schedule completes the session with the wrong data.
 */
module SyncRaces {
  import opened Crdt
  import opened Clock
  import opened Merging
  import opened Races
  import opened Replicas
  import opened Sync
  import opened SyncSafety
  import opened SyncData
  import opened SyncEnds
  import opened SyncPush

  // ---------- Blocks that can be kept waiting ----------

  /** What is reached from a node without going through those held back. */
  ghost function Around(n: Node, held: set<Node>): set<Node> {
    if n in held then {} else {n} + set l, m | l in n.links && m in Around(l.cid, held) :: m
  }

  /** Some block that is reached around those held back links to this one. */
  ghost predicate IsLinked(root: Node, held: set<Node>, a: Node) {
    exists p, l :: p in Around(root, held) && l in p.links && l.cid == a
  }

  /** Both get a job from other blocks, and can wait until all the others are done. */
  ghost predicate CanWait(root: Node, b0: set<Node>, a: Node, b: Node) {
    && a != b && a in Brought(root, b0) && b in Brought(root, b0)
    && IsLinked(root, {a, b}, a) && IsLinked(root, {a, b}, b)
    && New(root, b0) - {a, b} <= Around(root, {a, b})
  }

  // ---------- Running all the others ----------

  ghost predicate IsHeld(task: Task, held: set<Node>) { task.phase.Waiting? && task.node in held }

  ghost predicate Still(s: Session, held: set<Node>) {
    forall u :: 0 <= u < |s.tasks| ==> s.tasks[u].phase == Finished || IsHeld(s.tasks[u], held)
  }

  ghost predicate OneMerge(s: Session) {
    forall u, v :: 0 <= u < |s.tasks| && 0 <= v < |s.tasks| && s.tasks[u].phase.Merging? && s.tasks[v].phase.Merging?
      ==> u == v
  }

  lemma OneMergeIsNoClash(s: Session)
    requires OneMerge(s)
    ensures NoClash(Merges(s.tasks))
  {
  }

  /** Whoever merges goes on, so that no second merge starts. */
  lemma NextToRun(doc: DocId, s: Session, held: set<Node>) returns (t: nat)
    requires OneMerge(s) && !Still(s, held)
    ensures CanAct(s, t) && !IsHeld(s.tasks[t], held) && OneMerge(StepTask(doc, s, t))
  {
    if u: nat :| u < |s.tasks| && s.tasks[u].phase.Merging? {
      t := u;
    } else {
      t :| 0 <= t < |s.tasks| && s.tasks[t].phase != Finished && !IsHeld(s.tasks[t], held);
    }
    ActionIsLocal(doc, s, t);
    var s' := StepTask(doc, s, t);
    assert forall u :: 0 <= u < |s.tasks| && u != t ==> s'.tasks[u] == s.tasks[u] && !s.tasks[u].phase.Merging?;
  }

  ghost predicate GoesOn(doc: DocId, root: Node, b0: set<Node>, s: Session, fields: set<string>) {
    && AllWellNamed(doc, root) && PushInv(root, b0, s) && Within(doc, s, fields)
    && forall m :: m in Closure(root) ==> FieldOf(m.delta) in fields
  }

  lemma ActionGoesOn(doc: DocId, root: Node, b0: set<Node>, s: Session, t: nat, fields: set<string>)
    requires GoesOn(doc, root, b0, s, fields) && CanAct(s, t)
    ensures GoesOn(doc, root, b0, StepTask(doc, s, t), fields)
    ensures SumOf(StepTask(doc, s, t).tasks, Left(|fields|)) < SumOf(s.tasks, Left(|fields|))
  {
    assert TaskRight(root, s, s.tasks[t]);
    TotalFalls(doc, root, s, t, fields);
    ActionKeepsWithin(doc, root, s, t, fields);
    PushInvKept(doc, root, b0, s, t);
  }

  lemma HeldStaysOut(doc: DocId, s: Session, t: nat, held: set<Node>)
    requires CanAct(s, t) && !IsHeld(s.tasks[t], held) && s.blocks !! held
    ensures StepTask(doc, s, t).blocks !! held
  {
  }

  lemma {:induction false} RunOthers(doc: DocId, root: Node, b0: set<Node>, s: Session, held: set<Node>,
                                     fields: set<string>)
    returns (schedule: seq<nat>)
    requires GoesOn(doc, root, b0, s, fields) && OneMerge(s) && s.blocks !! held
    ensures IsSchedule(doc, s, schedule) && IsIsolated(doc, s, schedule)
    ensures GoesOn(doc, root, b0, RunSession(doc, s, schedule), fields)
    ensures Still(RunSession(doc, s, schedule), held) && RunSession(doc, s, schedule).blocks !! held
    decreases SumOf(s.tasks, Left(|fields|))
  {
    schedule := [];
    OneMergeIsNoClash(s);
    if !Still(s, held) {
      var t := NextToRun(doc, s, held);
      ActionGoesOn(doc, root, b0, s, t, fields);
      HeldStaysOut(doc, s, t, held);
      var rest := RunOthers(doc, root, b0, StepTask(doc, s, t), held, fields);
      schedule := [t] + rest;
      assert schedule[1..] == rest;
    }
  }

  // ---------- What is there then ----------

  lemma StillCovers(s: Session, held: set<Node>, b: Node, c: Node)
    requires Still(s, held) && Covered(s, b, c)
    ensures c in s.blocks || exists u :: 0 <= u < |s.tasks| && IsHeld(s.tasks[u], held) && s.tasks[u].node == c
  {
  }

  lemma {:induction false} AroundIsStored(s: Session, held: set<Node>, n: Node, m: Node)
    requires Still(s, held) && LinksCovered(s) && n in s.blocks && m in Around(n, held)
    ensures m in s.blocks
  {
    if m != n {
      var l :| l in n.links && m in Around(l.cid, held);
      assert Covered(s, n, l.cid);
      StillCovers(s, held, n, l.cid);
      AroundIsStored(s, held, l.cid, m);
    }
  }

  lemma StillBlocks(root: Node, b0: set<Node>, s: Session, a: Node, b: Node)
    requires Inv(root, b0, s) && Still(s, {a, b}) && s.blocks !! {a, b} && CanWait(root, b0, a, b)
    ensures s.blocks == b0 + Closure(root) - {a, b} && s.merged == s.blocks
  {
    assert TaskRight(root, s, s.tasks[0]);
    assert root in s.blocks;
    forall m | m in b0 + Closure(root) - {a, b} ensures m in s.blocks {
      if m !in b0 {
        AroundIsStored(s, {a, b}, root, m);
      }
    }
    forall m | m in s.blocks ensures m in s.merged { assert !IsMerging(s, m); }
  }

  /** A block that is held back has a job, which has not started. */
  lemma HeldHasJob(root: Node, b0: set<Node>, s: Session, held: set<Node>, a: Node) returns (t: nat)
    requires Inv(root, b0, s) && Still(s, held) && s.blocks !! held && root !in held && a in held
    requires IsLinked(root, held, a)
    ensures t < |s.tasks| && s.tasks[t].phase.Waiting? && s.tasks[t].node == a
  {
    assert TaskRight(root, s, s.tasks[0]);
    assert root in s.blocks;
    var p, l :| p in Around(root, held) && l in p.links && l.cid == a;
    AroundIsStored(s, held, root, p);
    assert Covered(s, p, a);
    StillCovers(s, held, p, a);
    t :| 0 <= t < |s.tasks| && IsHeld(s.tasks[t], held) && s.tasks[t].node == a;
  }

  // ---------- The two race ----------

  lemma {:induction false} RunAppend(doc: DocId, s: Session, x: seq<nat>, y: seq<nat>)
    requires IsSchedule(doc, s, x) && IsSchedule(doc, RunSession(doc, s, x), y)
    ensures IsSchedule(doc, s, x + y) && RunSession(doc, s, x + y) == RunSession(doc, RunSession(doc, s, x), y)
    decreases |x|
  {
    if x == [] {
      assert x + y == y;
    } else {
      assert (x + y)[1..] == x[1..] + y;
      RunAppend(doc, StepTask(doc, s, x[0]), x[1..], y);
    }
  }

  /** The session with the merges of two of its jobs at these points. */
  function At(s: Session, ta: nat, tb: nat, data: Data, a: Point, b: Point): Session
    requires ta < |s.tasks| && tb < |s.tasks|
  {
    s.(data := data,
       tasks := s.tasks[ta := s.tasks[ta].(phase := Merging(a))][tb := s.tasks[tb].(phase := Merging(b))])
  }

  ghost function TwoJobs(s: Session, ta: nat, tb: nat, a: Point, b: Point): seq<Job>
    requires ta < |s.tasks| && tb < |s.tasks|
  {
    [Job(s.tasks[ta].field, s.tasks[ta].node.delta, a), Job(s.tasks[tb].field, s.tasks[tb].node.delta, b)]
  }

  /** One access of one of the two. */
  lemma AccessInSession(doc: DocId, s: Session, ta: nat, tb: nat, data: Data, a: Point, b: Point, first: bool)
    requires ta < |s.tasks| && tb < |s.tasks| && ta != tb && (if first then a else b) != Ended
    ensures
      var here, t := At(s, ta, tb, data, a, b), if first then ta else tb;
      var (data', j) := Access(data, doc, TwoJobs(s, ta, tb, a, b)[if first then 0 else 1]);
      && CanAct(here, t)
      && StepTask(doc, here, t) == At(s, ta, tb, data', if first then j.at else a, if first then b else j.at)
  {
  }

  /** Every interleaving of the two merges is one of their jobs. */
  lemma {:induction false} RaceInSession(doc: DocId, s: Session, ta: nat, tb: nat, data: Data, a: Point, b: Point,
                                         order: seq<nat>)
    returns (schedule: seq<nat>, a': Point, b': Point)
    requires ta < |s.tasks| && tb < |s.tasks| && ta != tb
    ensures
      var here, js := At(s, ta, tb, data, a, b), TwoJobs(s, ta, tb, a, b);
      && IsSchedule(doc, here, schedule) && Run(data, doc, js, order).1 == TwoJobs(s, ta, tb, a', b')
      && RunSession(doc, here, schedule) == At(s, ta, tb, Run(data, doc, js, order).0, a', b')
    decreases |order|
  {
    var js := TwoJobs(s, ta, tb, a, b);
    if order == [] {
      schedule, a', b' := [], a, b;
    } else if order[0] >= 2 || js[order[0]].at == Ended {
      schedule, a', b' := RaceInSession(doc, s, ta, tb, data, a, b, order[1..]);
      if order[0] < 2 {
        assert js[order[0] := js[order[0]]] == js;
      }
    } else {
      var first := order[0] == 0;
      var (data', j) := Access(data, doc, js[order[0]]);
      var a1, b1 := if first then j.at else a, if first then b else j.at;
      AccessInSession(doc, s, ta, tb, data, a, b, first);
      assert js[order[0] := j] == TwoJobs(s, ta, tb, a1, b1);
      var rest;
      rest, a', b' := RaceInSession(doc, s, ta, tb, data', a1, b1, order[1..]);
      schedule := [if first then ta else tb] + rest;
      assert schedule[1..] == rest;
    }
  }

  // ---------- The session ends ----------

  /** Nothing is left to merge or to fetch. */
  ghost predicate IsQuiet(s: Session) {
    forall u :: 0 <= u < |s.tasks| ==> QuietTask(s.blocks, s.tasks[u])
  }

  ghost predicate QuietTask(blocks: set<Node>, task: Task) {
    || task.phase == Finished
    || ((forall l :: l in task.node.links ==> l.cid in blocks)
        && (task.phase == Merging(Ended) || (task.phase.Scanning? && task.phase.kids == [])))
  }

  lemma QuietStep(doc: DocId, s: Session, t: nat)
    requires IsQuiet(s) && CanAct(s, t)
    ensures IsQuiet(StepTask(doc, s, t)) && StepTask(doc, s, t).data == s.data
    ensures StepTask(doc, s, t).blocks == s.blocks
  {
    var s' := StepTask(doc, s, t);
    assert QuietTask(s.blocks, s.tasks[t]);
    ActionIsLocal(doc, s, t);
    QuietActs(doc, s, t);
    forall u | 0 <= u < |s'.tasks| ensures QuietTask(s'.blocks, s'.tasks[u]) {
      if u != t {
        assert QuietTask(s.blocks, s.tasks[u]);
      }
    }
  }

  lemma QuietActs(doc: DocId, s: Session, t: nat)
    requires CanAct(s, t) && QuietTask(s.blocks, s.tasks[t])
    ensures
      var s' := StepTask(doc, s, t);
      && t < |s'.tasks| && QuietTask(s.blocks, s'.tasks[t]) && s'.data == s.data && s'.blocks == s.blocks
  {
    var n, phase := s.tasks[t].node, s.tasks[t].phase;
    if phase.Scanning? && phase.i < |n.links| {
      assert n.links[phase.i] in n.links;
    }
  }

  lemma {:induction false} QuietEnds(doc: DocId, root: Node, b0: set<Node>, s: Session, fields: set<string>)
    returns (schedule: seq<nat>)
    requires GoesOn(doc, root, b0, s, fields) && IsQuiet(s)
    ensures IsSchedule(doc, s, schedule) && IsComplete(RunSession(doc, s, schedule))
    ensures RunSession(doc, s, schedule).data == s.data
    decreases SumOf(s.tasks, Left(|fields|))
  {
    schedule := [];
    if t: nat :| CanAct(s, t) {
      ActionGoesOn(doc, root, b0, s, t, fields);
      QuietStep(doc, s, t);
      var rest := QuietEnds(doc, root, b0, StepTask(doc, s, t), fields);
      schedule := [t] + rest;
      assert schedule[1..] == rest;
    } else {
      StuckIsComplete(root, b0, s);
    }
  }

  lemma {:induction false} RunGoesOn(doc: DocId, root: Node, b0: set<Node>, s: Session, schedule: seq<nat>,
                                     fields: set<string>)
    requires GoesOn(doc, root, b0, s, fields) && IsSchedule(doc, s, schedule)
    ensures GoesOn(doc, root, b0, RunSession(doc, s, schedule), fields)
    decreases |schedule|
  {
    if schedule != [] {
      ActionGoesOn(doc, root, b0, s, schedule[0], fields);
      RunGoesOn(doc, root, b0, StepTask(doc, s, schedule[0]), schedule[1..], fields);
    }
  }

  // ---------- The main result ----------

  /** Only the jobs of a and b are left, and all the other blocks are stored and merged. */
  ghost predicate TwoLeft(doc: DocId, root: Node, b0: set<Node>, s: Session, a: Node, b: Node, ta: nat, tb: nat,
                          fields: set<string>)
  {
    && GoesOn(doc, root, b0, s, fields) && Still(s, {a, b})
    && s.blocks == b0 + Closure(root) - {a, b} && Represents(s.data, Deltas(s.blocks))
    && ta < |s.tasks| && s.tasks[ta].phase.Waiting? && s.tasks[ta].node == a
    && tb < |s.tasks| && s.tasks[tb].phase.Waiting? && s.tasks[tb].node == b
  }

  /** All the others have run, without any two merges at once. */
  lemma OthersRun(doc: DocId, root: Node, s0: Session, held: set<Node>) returns (schedule: seq<nat>, h: Session)
    requires IsStart(doc, root, s0) && s0.blocks !! held
    ensures IsSchedule(doc, s0, schedule) && h == RunSession(doc, s0, schedule)
    ensures GoesOn(doc, root, s0.blocks, h, FieldsOf(doc, root, s0.data)) && Still(h, held) && h.blocks !! held
    ensures Represents(h.data, Deltas(h.merged))
  {
    StartHasPushInv(doc, root, s0);
    StartWithin(doc, root, s0);
    schedule := RunOthers(doc, root, s0.blocks, s0, held, FieldsOf(doc, root, s0.data));
    h := RunSession(doc, s0, schedule);
    StillData(doc, root, s0, schedule, h, held);
  }

  lemma StillData(doc: DocId, root: Node, s0: Session, schedule: seq<nat>, h: Session, held: set<Node>)
    requires IsStart(doc, root, s0) && IsSchedule(doc, s0, schedule) && IsIsolated(doc, s0, schedule)
    requires h == RunSession(doc, s0, schedule) && Still(h, held)
    ensures Represents(h.data, Deltas(h.merged))
  {
    StartHasInv(doc, root, s0);
    StartHasData(doc, root, s0);
    var ds, goal := IsolatedRun(doc, root, s0.blocks, s0, schedule, Deltas(s0.merged), s0.data);
    FinishedData(doc, h, ds, goal);
  }

  lemma TwoAreLeft(doc: DocId, root: Node, b0: set<Node>, h: Session, held: set<Node>, a: Node, b: Node,
                   fields: set<string>)
    returns (ta: nat, tb: nat)
    requires GoesOn(doc, root, b0, h, fields) && CanWait(root, b0, a, b)
    requires held == {a, b} && Still(h, held) && h.blocks !! held && Represents(h.data, Deltas(h.merged))
    ensures TwoLeft(doc, root, b0, h, a, b, ta, tb, fields)
  {
    StillBlocks(root, b0, h, a, b);
    ta := HeldHasJob(root, b0, h, held, a);
    tb := HeldHasJob(root, b0, h, held, b);
  }

  /** Nobody else has anything to do. */
  lemma OnlyTwo(root: Node, s: Session, a: Node, b: Node, ta: nat, tb: nat, u: nat)
    requires OwnersRight(s) && Still(s, {a, b}) && a != root && b != root && |s.tasks| > 0 && s.tasks[0].node == root
    requires ta < |s.tasks| && s.tasks[ta].phase.Waiting? && s.tasks[ta].node == a
    requires tb < |s.tasks| && s.tasks[tb].phase.Waiting? && s.tasks[tb].node == b
    requires u < |s.tasks| && s.tasks[u].phase != Finished
    ensures u == ta || u == tb
  {
    assert Owns(ta, s.tasks[ta], a) && Owns(tb, s.tasks[tb], b) && Owns(u, s.tasks[u], s.tasks[u].node);
  }

  /** Both jobs store their blocks and start their merges. */
  lemma BothStart(doc: DocId, s: Session, ta: nat, tb: nat)
    requires ta < |s.tasks| && tb < |s.tasks| && ta != tb && s.tasks[ta].phase.Waiting? && s.tasks[tb].phase.Waiting?
    ensures
      var a, b := s.tasks[ta], s.tasks[tb];
      && IsSchedule(doc, s, [ta, tb])
      && RunSession(doc, s, [ta, tb])
         == At(s.(blocks := s.blocks + {a.node, b.node}), ta, tb, s.data, First(a.field, a.node.delta),
               First(b.field, b.node.delta))
  {
    var s1 := StepTask(doc, s, ta);
    assert s1.tasks[tb] == s.tasks[tb] && CanAct(s1, tb);
    var s2 := StepTask(doc, s1, tb);
    assert [ta, tb][1..] == [tb] && [tb][1..] == [];
    assert IsSchedule(doc, s2, []) && IsSchedule(doc, s1, [tb]) && RunSession(doc, s1, [tb]) == s2;
    assert s.blocks + {s.tasks[ta].node} + {s.tasks[tb].node} == s.blocks + {s.tasks[ta].node, s.tasks[tb].node};
  }

  lemma RacedIsQuiet(doc: DocId, root: Node, b0: set<Node>, s: Session, a: Node, b: Node, ta: nat, tb: nat,
                     fields: set<string>, data: Data)
    requires TwoLeft(doc, root, b0, s, a, b, ta, tb, fields) && CanWait(root, b0, a, b)
    ensures IsQuiet(At(s.(blocks := s.blocks + {a, b}), ta, tb, data, Ended, Ended))
  {
    var r := At(s.(blocks := s.blocks + {a, b}), ta, tb, data, Ended, Ended);
    forall u | 0 <= u < |r.tasks| ensures QuietTask(r.blocks, r.tasks[u]) {
      if s.tasks[u].phase != Finished {
        OnlyTwo(root, s, a, b, ta, tb, u);
        forall l | l in s.tasks[u].node.links ensures l.cid in r.blocks {
          ClosureStep(root, s.tasks[u].node, l);
        }
      }
    }
  }

  lemma DeltasOfTwo(blocks: set<Node>, a: Node, b: Node)
    ensures Deltas(blocks + {a, b}) == Deltas(blocks) + {a.delta, b.delta}
  {
    forall d ensures d in Deltas(blocks + {a, b}) <==> d in Deltas(blocks) + {a.delta, b.delta} {
      if d in Deltas(blocks + {a, b}) {
        var m :| m in blocks + {a, b} && m.delta == d;
      }
      if d in Deltas(blocks) {
        var m :| m in blocks && m.delta == d;
        assert m in blocks + {a, b};
      }
      assert a in blocks + {a, b} && b in blocks + {a, b};
    }
  }

  /** Both jobs start, and make their accesses in this order. */
  lemma BothRace(doc: DocId, s: Session, ta: nat, tb: nat, a: Node, b: Node, order: seq<nat>)
    returns (schedule: seq<nat>, r: Session)
    requires ta < |s.tasks| && s.tasks[ta] == Task(a, FieldOf(a.delta), Waiting)
    requires tb < |s.tasks| && s.tasks[tb] == Task(b, FieldOf(b.delta), Waiting) && ta != tb
    requires AllEnded(Run(s.data, doc, [JobFor(a.delta), JobFor(b.delta)], order).1)
    ensures IsSchedule(doc, s, schedule) && r == RunSession(doc, s, schedule)
    ensures
      var data := Run(s.data, doc, [JobFor(a.delta), JobFor(b.delta)], order).0;
      r == At(s.(blocks := s.blocks + {a, b}), ta, tb, data, Ended, Ended)
  {
    var more := s.(blocks := s.blocks + {a, b});
    var pa, pb := First(FieldOf(a.delta), a.delta), First(FieldOf(b.delta), b.delta);
    BothStart(doc, s, ta, tb);
    var raced, a', b' := RaceInSession(doc, more, ta, tb, s.data, pa, pb, order);
    assert TwoJobs(more, ta, tb, pa, pb) == [JobFor(a.delta), JobFor(b.delta)];
    assert TwoJobs(more, ta, tb, a', b')[0].at == Ended && TwoJobs(more, ta, tb, a', b')[1].at == Ended;
    RunAppend(doc, s, [ta, tb], raced);
    schedule := [ta, tb] + raced;
    r := RunSession(doc, s, schedule);
  }

  /** From there on, an order of the accesses that goes wrong for the two merges does so for the session. */
  lemma RaceEnds(doc: DocId, root: Node, b0: set<Node>, s: Session, a: Node, b: Node, ta: nat, tb: nat,
                 fields: set<string>, order: seq<nat>)
    returns (schedule: seq<nat>)
    requires TwoLeft(doc, root, b0, s, a, b, ta, tb, fields) && CanWait(root, b0, a, b)
    requires AllEnded(Run(s.data, doc, [JobFor(a.delta), JobFor(b.delta)], order).1)
    ensures IsSchedule(doc, s, schedule) && IsComplete(RunSession(doc, s, schedule))
    ensures RunSession(doc, s, schedule).data == Run(s.data, doc, [JobFor(a.delta), JobFor(b.delta)], order).0
  {
    assert TaskRight(root, s, s.tasks[ta]) && TaskRight(root, s, s.tasks[tb]);
    var x, r := BothRace(doc, s, ta, tb, a, b, order);
    RacedIsQuiet(doc, root, b0, s, a, b, ta, tb, fields, r.data);
    RunGoesOn(doc, root, b0, s, x, fields);
    var y := QuietEnds(doc, root, b0, r, fields);
    RunAppend(doc, s, x, y);
    schedule := x + y;
  }

  lemma RaceFromTwo(doc: DocId, root: Node, b0: set<Node>, s: Session, a: Node, b: Node, ta: nat, tb: nat,
                    fields: set<string>)
    returns (schedule: seq<nat>)
    requires TwoLeft(doc, root, b0, s, a, b, ta, tb, fields) && CanWait(root, b0, a, b)
    requires CanRace(s.data, doc, a.delta, b.delta)
    ensures IsSchedule(doc, s, schedule) && IsComplete(RunSession(doc, s, schedule))
    ensures !Represents(RunSession(doc, s, schedule).data, Deltas(s.blocks + {a, b}))
  {
    assert WellNamed(doc, a) && WellNamed(doc, b);
    RaceGoesWrong(s.data, doc, Deltas(s.blocks), a.delta, b.delta);
    var order :| AllEnded(Run(s.data, doc, [JobFor(a.delta), JobFor(b.delta)], order).1)
                 && !Represents(Run(s.data, doc, [JobFor(a.delta), JobFor(b.delta)], order).0,
                                Deltas(s.blocks) + {a.delta, b.delta});
    schedule := RaceEnds(doc, root, b0, s, a, b, ta, tb, fields, order);
    DeltasOfTwo(s.blocks, a, b);
  }

  /** The merges of the two deltas race in a store that can decode what they read. */
  ghost predicate CanRace(s: Data, doc: DocId, a: Delta, b: Delta) {
    && (a.RegisterDelta? ==> Decodable(s, a.key)) && (b.RegisterDelta? ==> Decodable(s, b.key))
    && Race(s, doc, a, b)
  }

  lemma RaceFromHeld(doc: DocId, root: Node, b0: set<Node>, h: Session, held: set<Node>, a: Node, b: Node, before: Data,
                     fields: set<string>)
    returns (schedule: seq<nat>)
    requires GoesOn(doc, root, b0, h, fields) && CanWait(root, b0, a, b)
    requires held == {a, b} && Still(h, held) && h.blocks !! held && Represents(h.data, Deltas(h.merged))
    requires Represents(before, Deltas(b0 + Closure(root) - {a, b})) && CanRace(before, doc, a.delta, b.delta)
    ensures IsSchedule(doc, h, schedule) && IsComplete(RunSession(doc, h, schedule))
    ensures !Represents(RunSession(doc, h, schedule).data, Deltas(b0 + Closure(root)))
  {
    var ta, tb := TwoAreLeft(doc, root, b0, h, held, a, b, fields);
    RepresentsUnique(before, h.data, Deltas(h.blocks));
    schedule := RaceFromTwo(doc, root, b0, h, a, b, ta, tb, fields);
    assert h.blocks + {a, b} == b0 + Closure(root);
  }

  /**
   If two of the blocks that a push brings can wait for all the others, and race in the store that those leave, some
   schedule completes the session with data that its blocks do not stand for.
   */
  lemma RacingPushGoesWrong(doc: DocId, root: Node, s0: Session, a: Node, b: Node, before: Data)
    returns (schedule: seq<nat>)
    requires IsStart(doc, root, s0) && CanWait(root, s0.blocks, a, b)
    requires Represents(before, Deltas(s0.blocks + Closure(root) - {a, b})) && CanRace(before, doc, a.delta, b.delta)
    ensures IsSchedule(doc, s0, schedule) && IsComplete(RunSession(doc, s0, schedule))
    ensures !Represents(RunSession(doc, s0, schedule).data, Deltas(s0.blocks + Closure(root)))
  {
    var held := {a, b};
    var x, h := OthersRun(doc, root, s0, held);
    var y := RaceFromHeld(doc, root, s0.blocks, h, held, a, b, before, FieldsOf(doc, root, s0.data));
    RunAppend(doc, s0, x, y);
    schedule := x + y;
  }
}
