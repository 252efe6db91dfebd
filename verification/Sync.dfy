/**
 The DAG sync session that a pushed block starts (net/server.go, net/process.go, net/dag.go): jobs store and
 merge blocks, look for links that are not stored, reserve those and spawn further jobs, while a wait group
 counts the jobs. The jobs of a session interleave in any way, with at most one store access per action.
 */
module Sync {
  import opened Crdt
  import opened Clock
  import opened Merging
  import opened Replicas

  // ---------- Tasks ----------

  /** The next access of `ProcessNode` to the heads and blocks: ask for a head, drop it, ask for a block, be a head. */
  datatype Look = IsHead | DropHead | IsStored | BecomeHead

  /** What a task still has to do for its node, in order; `Scanning` has i links behind it. */
  datatype Phase =
    | Waiting
    | Merging(at: Point)
    | Scanning(i: nat, kids: seq<Node>, look: Look)
    | Spawning(kids: seq<Node>)
    | Fetching(c: Node, kids: seq<Node>)
    | Finished

  /** A job of the session; `field` is empty for the composite DAG. */
  datatype Task = Task(node: Node, field: string, phase: Phase)

  /** Task 0 is the push itself. It is not counted; it waits for the counter at the end. */
  datatype Session = Session(
    blocks: set<Node>, merged: set<Node>, data: Data, heads: Heads,
    reserved: set<Node>, tasks: seq<Task>, counter: int)

  function SpaceOf(doc: DocId, field: string): Namespace {
    Namespace(doc.docKey, if field == NO_FIELD then COMPOSITE_NAMESPACE else field)
  }

  /** The name of the last link to `c` that is not a `_head` link. */
  function NameOf(links: seq<Link>, c: Node): string {
    if links == [] then NO_FIELD
    else if links[|links| - 1].cid == c && links[|links| - 1].name != HEAD then links[|links| - 1].name
    else NameOf(links[..|links| - 1], c)
  }

  /** The field of a child: its link name, or else the field of its parent. */
  function ChildField(parent: Node, field: string, c: Node): string {
    var name := NameOf(parent.links, c);
    if name == NO_FIELD && field != NO_FIELD then field else name
  }

  predicate CanAct(s: Session, t: nat) {
    t < |s.tasks| && s.tasks[t].phase != Finished
  }

  function Done(s: Session, t: nat): Session
    requires t < |s.tasks|
  {
    s.(tasks := s.tasks[t := s.tasks[t].(phase := Finished)], counter := if t == 0 then s.counter else s.counter - 1)
  }

  function Continue(s: Session, t: nat, phase: Phase): Session
    requires t < |s.tasks|
  {
    s.(tasks := s.tasks[t := s.tasks[t].(phase := phase)])
  }

  /** After the merge, a node without `_head` links becomes a head before its links are looked at. */
  function AfterMerge(n: Node): Phase {
    Scanning(0, [], if exists l :: l in n.links && l.name == HEAD then IsHead else BecomeHead)
  }

  /** A head is replaced, a stored block makes this node a head, the other links are children. */
  function Scan(doc: DocId, s: Session, t: nat, i: nat, kids: seq<Node>, look: Look): Session
    requires t < |s.tasks| && (i < |s.tasks[t].node.links| || look == BecomeHead)
  {
    var node, ns := s.tasks[t].node, SpaceOf(doc, s.tasks[t].field);
    match look
    case IsHead =>
      Continue(s, t, Scanning(i, kids, if HeadKey(ns, node.links[i].cid) in s.heads then DropHead else IsStored))
    case DropHead =>
      Continue(s, t, Scanning(i + 1, kids, BecomeHead)).(heads := s.heads - {HeadKey(ns, node.links[i].cid)})
    case IsStored =>
      var c := node.links[i].cid;
      Continue(s, t, if c in s.blocks then Scanning(i + 1, kids, BecomeHead) else Scanning(i + 1, kids + [c], IsHead))
    case BecomeHead =>
      Continue(s, t, Scanning(i, kids, IsHead)).(heads := s.heads[HeadKey(ns, node) := node.delta.priority])
  }

  function JobOf(task: Task): Job {
    Job(task.field, task.node.delta, if task.phase.Merging? then task.phase.at else Ended)
  }

  /** The next action of task t, with at most one access to a store. */
  ghost function StepTask(doc: DocId, s: Session, t: nat): Session
    requires CanAct(s, t)
  {
    var task := s.tasks[t];
    match task.phase
    case Waiting => Continue(s, t, Merging(First(task.field, task.node.delta))).(blocks := s.blocks + {task.node})
    case Merging(at) =>
      if at == Ended then Continue(s, t, AfterMerge(task.node)).(merged := s.merged + {task.node})
      else
        var (data, job) := Access(s.data, doc, JobOf(task));
        Continue(s, t, Merging(job.at)).(data := data)
    case Scanning(i, kids, look) =>
      if i < |task.node.links| || look == BecomeHead then Scan(doc, s, t, i, kids, look)
      else
        var s' := s.(reserved := if t == 0 then s.reserved else s.reserved - {task.node});
        if kids == [] then Done(s', t) else Continue(s', t, Spawning(kids))
    case Spawning(kids) =>
      if kids == [] then Done(s, t)
      else if kids[0] in s.reserved then Continue(s, t, Spawning(kids[1..]))
      else Continue(s, t, Fetching(kids[0], kids[1..])).(reserved := s.reserved + {kids[0]})
    case Fetching(c, kids) =>
      var s' := Continue(s, t, Spawning(kids));
      s'.(counter := s.counter + 1, tasks := s'.tasks + [Task(c, ChildField(task.node, task.field, c), Waiting)])
    case Finished => s
  }

  /** The schedule names who acts next, any enabled one. */
  ghost predicate IsSchedule(doc: DocId, s: Session, schedule: seq<nat>)
    decreases |schedule|
  {
    schedule == [] || (CanAct(s, schedule[0]) && IsSchedule(doc, StepTask(doc, s, schedule[0]), schedule[1..]))
  }

  ghost function RunSession(doc: DocId, s: Session, schedule: seq<nat>): Session
    requires IsSchedule(doc, s, schedule)
    decreases |schedule|
  {
    if schedule == [] then s else RunSession(doc, StepTask(doc, s, schedule[0]), schedule[1..])
  }

  // ---------- What a session may start from ----------

  ghost function Closure(n: Node): set<Node> {
    {n} + set l, m | l in n.links && m in Closure(l.cid) :: m
  }

  ghost predicate LinkClosed(blocks: set<Node>) {
    forall b, l :: b in blocks && l in b.links ==> l.cid in blocks
  }

  function FieldOf(d: Delta): string {
    if d.CompositeDelta? then NO_FIELD else d.key.field
  }

  /** A block of the document whose links are named as `makeNode` and `save` name them. */
  ghost predicate WellNamed(doc: DocId, n: Node) {
    && n.delta.Valid()
    && (if n.delta.CompositeDelta? then n.delta.doc == doc else n.delta.key.doc == doc)
    && forall l :: l in n.links ==>
         if l.name == HEAD then FieldOf(l.cid.delta) == FieldOf(n.delta)
         else n.delta.CompositeDelta? && l.cid.delta.RegisterDelta? && l.cid.delta.key.field == l.name
  }

  /** The push of a block that is not stored, into a link-closed store in which every block has been merged. */
  ghost predicate IsStart(doc: DocId, root: Node, s: Session) {
    && LinkClosed(s.blocks) && s.merged == s.blocks && HeadsStored(s.heads, s.blocks)
    && Represents(s.data, Deltas(s.merged)) && AllValid(Deltas(s.merged))
    && root !in s.blocks && root.delta.CompositeDelta?
    && (forall m :: m in Closure(root) ==> WellNamed(doc, m))
    && s.reserved == {root} && s.counter == 0
    && s.tasks == [Task(root, NO_FIELD, Waiting)]
  }

  lemma {:induction false} ClosureStep(n: Node, m: Node, l: Link)
    requires m in Closure(n) && l in m.links
    ensures l.cid in Closure(n)
  {
    if m == n {
      assert l.cid in Closure(l.cid);
    } else {
      var k :| k in n.links && m in Closure(k.cid);
      ClosureStep(k.cid, m, l);
    }
  }

  lemma {:induction false} ClosureWithin(n: Node, blocks: set<Node>)
    requires LinkClosed(blocks) && n in blocks
    ensures Closure(n) <= blocks
  {
    forall m | m in Closure(n) ensures m in blocks {
      if m != n {
        var l :| l in n.links && m in Closure(l.cid);
        ClosureWithin(l.cid, blocks);
      }
    }
  }
}
