/**
 Any number of replicas that write locally (db/collection.go, db/collection_delete.go) and process each
 other's blocks after the blocks those name by `_head`. The invariant of all their runs says what the
 stores and the head sets of a replica are, as functions of its blocks alone.
 */
module Replicas {
  import opened ByteOrder
  import opened Crdt
  import opened Clock

  datatype Replica = Replica(data: Data, heads: Heads, blocks: set<Node>)

  type World = seq<Replica>

  const FRESH := Replica(map[], map[], {})

  /** Storing and processing one block. */
  function Process(r: Replica, n: Node): Replica {
    var blocks := r.blocks + {n};
    Replica(MergeDelta(r.data, n.delta), Processed(r.heads, blocks, n), blocks)
  }

  // ---------- Steps ----------

  datatype Step =
    | LocalSet(key: FieldKey, value: Bytes, node: Node)
    | LocalCommit(doc: DocId, subs: seq<Link>, node: Node)
    | LocalDelete(doc: DocId, subs: seq<Link>, node: Node)
    | Deliver(from: nat, node: Node)

  /** The links that a save gives its composite: the register nodes it has just written. */
  ghost predicate FieldLinks(blocks: set<Node>, doc: DocId, subs: seq<Link>) {
    forall l :: l in subs ==>
      && l.name != HEAD && l.cid in blocks
      && l.cid.delta.RegisterDelta? && l.cid.delta.key.doc == doc
  }

  /** The links that a delete gives its composite: the heads, once more. */
  ghost predicate DeleteLinks(h: Heads, doc: DocId, subs: seq<Link>) {
    exists hs :: Enumerates(hs, h, Namespace(doc.docKey, COMPOSITE_NAMESPACE)) && subs == HeadLinks(hs)
  }

  ghost predicate Enabled(w: World, i: nat, step: Step)
    requires i < |w|
  {
    var r := w[i];
    match step
    case LocalSet(f, v, n) =>
      && RegisterDelta(f, 0, v).Valid() && !IsDeleted(r.data, f.doc)
      && IsNextNode(r.heads, RegisterDelta(f, 0, v), [], n)
    case LocalCommit(doc, subs, n) =>
      && !IsDeleted(r.data, doc) && FieldLinks(r.blocks, doc, subs)
      && IsNextNode(r.heads, CompositeDelta(doc, 0, Active), subs, n)
    case LocalDelete(doc, subs, n) =>
      && PrimaryKey(doc) in r.data && !IsDeleted(r.data, doc) && DeleteLinks(r.heads, doc, subs)
      && IsNextNode(r.heads, CompositeDelta(doc, 0, Deleted), subs, n)
    case Deliver(from, n) =>
      && from < |w| && n in w[from].blocks && n !in r.blocks
      && forall l :: l in n.links && l.name == HEAD ==> l.cid in r.blocks
  }

  ghost predicate Next(w: World, i: nat, step: Step, w': World) {
    && i < |w| && Enabled(w, i, step)
    && w' == w[i := Process(w[i], step.node)]
  }

  /** A run: `who[j]` takes `steps[j]` in `ws[j]`, and every replica starts empty. */
  ghost predicate IsRun(ws: seq<World>, who: seq<nat>, steps: seq<Step>) {
    && |ws| == |steps| + 1 && |who| == |steps|
    && (forall i :: 0 <= i < |ws[0]| ==> ws[0][i] == FRESH)
    && forall j :: 0 <= j < |steps| ==> Next(ws[j], who[j], steps[j], ws[j + 1])
  }

  // ---------- The invariant ----------

  /** Priorities grow along `_head` links, and links are named after where they lead. */
  ghost predicate WellFormed(n: Node) {
    && n.delta.Valid() && n.delta.priority > 0 && LinksByName(n)
    && forall l :: l in n.links && l.name == HEAD ==> l.cid.delta.priority < n.delta.priority
  }

  ghost predicate Causal(blocks: set<Node>) {
    forall n :: n in blocks ==>
      WellFormed(n) && forall l :: l in n.links && l.name == HEAD ==> l.cid in blocks
  }

  ghost function Deltas(blocks: set<Node>): set<Delta> { set n | n in blocks :: n.delta }

  ghost predicate Good(r: Replica) {
    && Causal(r.blocks)
    && HeadsAreTips(r.heads, r.blocks)
    && Represents(r.data, Deltas(r.blocks))
  }

  ghost predicate AllGood(w: World) {
    forall i :: 0 <= i < |w| ==> Good(w[i])
  }

  lemma DeltasValid(blocks: set<Node>)
    requires Causal(blocks)
    ensures AllValid(Deltas(blocks))
  {
  }

  /** Processing a new, well-formed block after its `_head` targets keeps a replica good. */
  lemma ProcessKeepsGood(r: Replica, n: Node)
    requires Good(r) && n !in r.blocks && WellFormed(n)
    requires forall l :: l in n.links && l.name == HEAD ==> l.cid in r.blocks
    ensures Good(Process(r, n)) && HeadKey(NamespaceOf(n.delta), n) in Process(r, n).heads
  {
    var blocks := r.blocks + {n};
    DeltasValid(r.blocks);
    MergeStep(r.data, Deltas(r.blocks), n.delta);
    assert Deltas(blocks) == Deltas(r.blocks) + {n.delta};
    HeadsStayTipsExactly(r.heads, r.blocks, blocks, n);
    if l :| l in n.links && l.name == HEAD {
      assert Reached(r.heads, blocks, NamespaceOf(n.delta), n.links);
    }
  }

  /** Every processed node lies below a head of its DAG that is at least as high. */
  lemma {:induction false} BelowSomeHead(r: Replica, n: Node, m: nat)
    requires Good(r) && n in r.blocks && IsMaxHeight(r.heads, NamespaceOf(n.delta), m)
    ensures n.delta.priority <= m
    decreases Above(r.blocks, n.delta.priority)
  {
    var k := HeadKey(NamespaceOf(n.delta), n);
    if k !in r.heads {
      assert !IsTip(r.blocks, k.ns, k.cid);
      var up :| up in r.blocks && NamesHead(up, n);
      assert up in Above(r.blocks, n.delta.priority) && up !in Above(r.blocks, up.delta.priority);
      BelowSomeHead(r, up, m);
    }
  }

  ghost function Above(blocks: set<Node>, p: nat): set<Node> {
    set n | n in blocks && n.delta.priority > p
  }

  /** A node made locally is new, well-formed, and higher than everything processed in its DAG. */
  lemma LocalNodeIsNew(r: Replica, d: Delta, subs: seq<Link>, n: Node)
    requires Good(r) && d.Valid() && IsNextNode(r.heads, d, subs, n)
    requires FieldSubs(d, subs) || HeadSubs(r.heads, d, subs)
    ensures n !in r.blocks && WellFormed(n)
    ensures forall l :: l in n.links && l.name == HEAD ==> l.cid in r.blocks
    ensures forall b :: b in r.blocks && NamespaceOf(b.delta) == NamespaceOf(d) ==> b.delta.priority < n.delta.priority
  {
    var ns := NamespaceOf(d);
    forall b | b in r.blocks && NamespaceOf(b.delta) == ns ensures b.delta.priority < n.delta.priority {
      BelowSomeHead(r, b, n.delta.priority - 1);
    }
    var hs :| Enumerates(hs, r.heads, ns) && n.links == HeadLinks(hs) + subs;
    forall l | l in n.links
      ensures l.name == HEAD <==> NamespaceOf(l.cid.delta) == ns
      ensures l.name == HEAD ==> l.cid in r.blocks
    {
      if l !in subs {
        assert l in HeadLinks(hs);
        assert HeadKey(ns, l.cid) in r.heads;
      } else if HeadSubs(r.heads, d, subs) {
        assert HeadKey(ns, l.cid) in r.heads;
      }
    }
  }

  ghost predicate FieldSubs(d: Delta, subs: seq<Link>) {
    forall l :: l in subs ==> l.name != HEAD && NamespaceOf(l.cid.delta) != NamespaceOf(d)
  }

  ghost predicate HeadSubs(h: Heads, d: Delta, subs: seq<Link>) {
    forall l :: l in subs ==> l.name == HEAD && HeadKey(NamespaceOf(d), l.cid) in h
  }

  /** The delta of a local step, before the clock gives it a priority. */
  function LocalDelta(step: Step): Delta
    requires !step.Deliver?
  {
    match step
    case LocalSet(f, v, _) => RegisterDelta(f, 0, v)
    case LocalCommit(doc, _, _) => CompositeDelta(doc, 0, Active)
    case LocalDelete(doc, _, _) => CompositeDelta(doc, 0, Deleted)
  }

  lemma LocalStepIsNew(w: World, i: nat, step: Step)
    requires i < |w| && AllGood(w) && Enabled(w, i, step) && !step.Deliver?
    ensures step.node !in w[i].blocks && WellFormed(step.node)
    ensures forall l :: l in step.node.links && l.name == HEAD ==> l.cid in w[i].blocks
    ensures forall b :: b in w[i].blocks && NamespaceOf(b.delta) == NamespaceOf(step.node.delta) ==>
              b.delta.priority < step.node.delta.priority
  {
    var r := w[i];
    match step
    case LocalSet(f, v, n) => LocalNodeIsNew(r, LocalDelta(step), [], n);
    case LocalCommit(doc, subs, n) =>
      assert FieldSubs(LocalDelta(step), subs) by {
        forall l | l in subs ensures NamespaceOf(l.cid.delta) != NamespaceOf(LocalDelta(step)) {
          assert WellFormed(l.cid);
        }
      }
      LocalNodeIsNew(r, LocalDelta(step), subs, n);
    case LocalDelete(doc, subs, n) =>
      var hs :| Enumerates(hs, r.heads, Namespace(doc.docKey, COMPOSITE_NAMESPACE)) && subs == HeadLinks(hs);
      assert HeadSubs(r.heads, LocalDelta(step), subs);
      LocalNodeIsNew(r, LocalDelta(step), subs, n);
  }

  lemma StepKeepsGood(w: World, i: nat, step: Step, w': World)
    requires AllGood(w) && Next(w, i, step, w')
    ensures AllGood(w')
  {
    if step.Deliver? {
      assert Good(w[step.from]);
    } else {
      LocalStepIsNew(w, i, step);
    }
    ProcessKeepsGood(w[i], step.node);
  }

  lemma {:induction false} RunIsGood(ws: seq<World>, who: seq<nat>, steps: seq<Step>, j: nat)
    requires IsRun(ws, who, steps) && j < |ws|
    ensures AllGood(ws[j])
  {
    if j == 0 {
      EmptyRepresentsNothing();
      assert Deltas({}) == {};
    } else {
      RunIsGood(ws, who, steps, j - 1);
      assert Next(ws[j - 1], who[j - 1], steps[j - 1], ws[j]);
      StepKeepsGood(ws[j - 1], who[j - 1], steps[j - 1], ws[j]);
    }
  }

  // ---------- What holds in every run ----------

  /** Two replicas with the same blocks, whenever and in whichever runs, have equal data and equal heads. */
  lemma SameBlocksSameState(ws: seq<World>, who: seq<nat>, steps: seq<Step>, j: nat, i: nat,
                            vs: seq<World>, who': seq<nat>, steps': seq<Step>, j': nat, i': nat)
    requires IsRun(ws, who, steps) && j < |ws| && i < |ws[j]|
    requires IsRun(vs, who', steps') && j' < |vs| && i' < |vs[j']|
    requires ws[j][i].blocks == vs[j'][i'].blocks
    ensures ws[j][i] == vs[j'][i']
  {
    RunIsGood(ws, who, steps, j);
    RunIsGood(vs, who', steps', j');
    var r, q := ws[j][i], vs[j'][i'];
    RepresentsUnique(r.data, q.data, Deltas(r.blocks));
    assert forall k :: k in r.heads <==> k in q.heads;
  }

  /** In every run the head set of each DAG is exactly its tips, and priorities grow along `_head` links. */
  lemma HeadsAreExactInEveryRun(ws: seq<World>, who: seq<nat>, steps: seq<Step>, j: nat, i: nat)
    requires IsRun(ws, who, steps) && j < |ws| && i < |ws[j]|
    ensures HeadsAreTips(ws[j][i].heads, ws[j][i].blocks)
    ensures forall n, l :: n in ws[j][i].blocks && l in n.links && l.name == HEAD ==>
              l.cid in ws[j][i].blocks && l.cid.delta.priority < n.delta.priority
  {
    RunIsGood(ws, who, steps, j);
  }

  /** A local set outranks everything its replica has processed for that field, and is what a read returns next. */
  lemma LocalWritesWin(ws: seq<World>, who: seq<nat>, steps: seq<Step>, j: nat)
    requires IsRun(ws, who, steps) && j < |steps| && steps[j].LocalSet?
    ensures who[j] < |ws[j]| == |ws[j + 1]|
    ensures
      var f, v, n, r := steps[j].key, steps[j].value, steps[j].node, ws[j][who[j]];
      && (forall b :: b in r.blocks && NamespaceOf(b.delta) == NamespaceOf(n.delta) ==>
            b.delta.priority < n.delta.priority)
      && Payload(ws[j + 1][who[j]].data, DataKey(f.doc, ValueKey, f.field)) == v
      && DataKey(f.doc, ValueKey, f.field) in ws[j + 1][who[j]].data
  {
    RunIsGood(ws, who, steps, j);
    assert Next(ws[j], who[j], steps[j], ws[j + 1]);
    LocalStepIsNew(ws[j], who[j], steps[j]);
    var f, v, n, r := steps[j].key, steps[j].value, steps[j].node, ws[j][who[j]];
    assert RegisterRight(r.data, Deltas(r.blocks), f);
    var cur := Current(r.data, f);
    if cur != BOTTOM {
      var b :| b in r.blocks && b.delta == RegisterDelta(f, cur.priority, cur.data);
      assert NamespaceOf(b.delta) == NamespaceOf(n.delta);
    }
    assert Beats(Write(n.delta.priority, v), cur);
    assert ([LWW_REGISTER] + v)[1..] == v;
  }

  lemma {:induction false} BlocksOnlyGrow(ws: seq<World>, who: seq<nat>, steps: seq<Step>, i: nat, j: nat, k: nat)
    requires IsRun(ws, who, steps) && j <= k < |ws| && i < |ws[0]|
    ensures |ws[j]| == |ws[k]| == |ws[0]| && ws[j][i].blocks <= ws[k][i].blocks
    decreases k
  {
    if k > 0 {
      assert Next(ws[k - 1], who[k - 1], steps[k - 1], ws[k]);
      if j < k {
        BlocksOnlyGrow(ws, who, steps, i, j, k - 1);
      } else {
        BlocksOnlyGrow(ws, who, steps, i, j - 1, k - 1);
      }
    }
  }

  /** A deletion that a replica has seen is never undone there, and its document's values all lie under `d`. */
  lemma DeletedStaysDeleted(ws: seq<World>, who: seq<nat>, steps: seq<Step>, i: nat, j: nat, k: nat, doc: DocId)
    requires IsRun(ws, who, steps) && j <= k < |ws| && i < |ws[0]|
    ensures |ws[j]| == |ws[k]| == |ws[0]|
    ensures IsDeleted(ws[j][i].data, doc) ==> IsDeleted(ws[k][i].data, doc)
    ensures Partitioned(ws[k][i].data, doc)
  {
    BlocksOnlyGrow(ws, who, steps, i, j, k);
    RunIsGood(ws, who, steps, j);
    RunIsGood(ws, who, steps, k);
    var r, q := ws[j][i], ws[k][i];
    assert MarkerRight(r.data, Deltas(r.blocks), doc) && MarkerRight(q.data, Deltas(q.blocks), doc);
    assert Deltas(r.blocks) <= Deltas(q.blocks);
    assert HasDelete(Deltas(r.blocks), doc) ==> HasDelete(Deltas(q.blocks), doc);
    assert HasDelete(Deltas(q.blocks), doc) ==> HasComposite(Deltas(q.blocks), doc);
    forall field ensures
      && (IsDeleted(q.data, doc) ==> DataKey(doc, ValueKey, field) !in q.data)
      && (!IsDeleted(q.data, doc) ==> DataKey(doc, DeletedKey, field) !in q.data)
    {
      assert RegisterRight(q.data, Deltas(q.blocks), FieldKey(doc, field));
    }
  }
}
