/**
 The Merkle clock (merkle/clock): nodes of a commit DAG, the head set of each DAG, and how adding or
 processing a node changes the heads. A node stands for its own CID, so content addressing is exact
 and links are acyclic by construction.
 */
module Clock {
  import opened ByteOrder
  import opened Crdt

  // ---------- Nodes ----------

  datatype Link = Link(name: string, cid: Node)

  datatype Node = Node(delta: Delta, links: seq<Link>)

  const HEAD := "_head"

  /** A head set belongs to a document key and a field; the collection is not part of it. */
  datatype Namespace = Namespace(docKey: Bytes, field: string)

  function NamespaceOf(d: Delta): Namespace {
    match d
    case RegisterDelta(f, _, _) => Namespace(f.doc.docKey, f.field)
    case CompositeDelta(doc, _, _) => Namespace(doc.docKey, COMPOSITE_NAMESPACE)
  }

  predicate NamesHead(m: Node, c: Node) {
    exists l :: l in m.links && l.name == HEAD && l.cid == c
  }

  lemma LinkIsNotSelf(n: Node, l: Link)
    requires l in n.links
    ensures l.cid != n
  {
  }

  // ---------- Head sets ----------

  datatype HeadKey = HeadKey(ns: Namespace, cid: Node)

  type Heads = map<HeadKey, nat>

  /** `m` is the greatest height stored for `ns`, or 0 when there is none. */
  ghost predicate IsMaxHeight(h: Heads, ns: Namespace, m: nat) {
    && (forall k :: k in h && k.ns == ns ==> h[k] <= m)
    && (m == 0 || exists k :: k in h && k.ns == ns && h[k] == m)
  }

  ghost predicate Enumerates(hs: seq<Node>, h: Heads, ns: Namespace) {
    && (forall c :: c in hs <==> HeadKey(ns, c) in h)
    && (forall i, j :: 0 <= i < j < |hs| ==> hs[i] != hs[j])
  }

  /** Some link leads to a head of this DAG or to a stored block. */
  predicate Reached(h: Heads, blocks: set<Node>, ns: Namespace, links: seq<Link>) {
    exists l :: l in links && (HeadKey(ns, l.cid) in h || l.cid in blocks)
  }

  /** The node becomes a head: it has no `_head` link, or it reaches something known. */
  predicate Attaches(h: Heads, blocks: set<Node>, ns: Namespace, links: seq<Link>) {
    (forall l :: l in links ==> l.name != HEAD) || Reached(h, blocks, ns, links)
  }

  function Superseded(ns: Namespace, links: seq<Link>): set<HeadKey> {
    set l | l in links :: HeadKey(ns, l.cid)
  }

  /** The heads once a node `root` with these links has been processed. */
  function HeadsAfter(h: Heads, blocks: set<Node>, ns: Namespace, root: Node, prio: nat, links: seq<Link>): Heads {
    if Attaches(h, blocks, ns, links) then (h - Superseded(ns, links))[HeadKey(ns, root) := prio] else h
  }

  /** The link targets that are not stored, in link order. */
  function Unknown(blocks: set<Node>, links: seq<Link>): seq<Node> {
    if links == [] then []
    else Unknown(blocks, links[..|links| - 1])
         + (if links[|links| - 1].cid in blocks then [] else [links[|links| - 1].cid])
  }

  ghost predicate HeadsStored(h: Heads, blocks: set<Node>) {
    forall k :: k in h ==> k.cid in blocks
  }

  // ---------- Heads are the tips ----------

  ghost predicate IsTip(processed: set<Node>, ns: Namespace, c: Node) {
    && c in processed && NamespaceOf(c.delta) == ns
    && forall m :: m in processed ==> !NamesHead(m, c)
  }

  /** The head set of every DAG is its tips, each with its own priority. */
  ghost predicate HeadsAreTips(h: Heads, processed: set<Node>) {
    && (forall k :: k in h <==> IsTip(processed, k.ns, k.cid))
    && (forall k :: k in h ==> h[k] == k.cid.delta.priority)
  }

  /** `_head` links stay in the DAG of the node, all other links leave it. */
  ghost predicate LinksByName(n: Node) {
    forall l :: l in n.links ==> (l.name == HEAD <==> NamespaceOf(l.cid.delta) == NamespaceOf(n.delta))
  }

  function Processed(h: Heads, blocks: set<Node>, n: Node): Heads {
    HeadsAfter(h, blocks, NamespaceOf(n.delta), n, n.delta.priority, n.links)
  }

  /** Processing a new node keeps the heads exact if and only if it attaches just when nobody names it yet. */
  lemma HeadsStayTipsExactly(h: Heads, processed: set<Node>, blocks: set<Node>, n: Node)
    requires HeadsAreTips(h, processed) && n !in processed && LinksByName(n)
    ensures HeadsAreTips(Processed(h, blocks, n), processed + {n})
            <==> (Attaches(h, blocks, NamespaceOf(n.delta), n.links)
                  <==> forall m :: m in processed ==> !NamesHead(m, n))
  {
    var ns := NamespaceOf(n.delta);
    var h', p' := Processed(h, blocks, n), processed + {n};
    var me := HeadKey(ns, n);
    assert !NamesHead(n, n) by {
      forall l | l in n.links ensures l.cid != n { LinkIsNotSelf(n, l); }
    }
    assert IsTip(p', ns, n) <==> forall m :: m in processed ==> !NamesHead(m, n);
    assert me in h' <==> Attaches(h, blocks, ns, n.links);
    forall k | k != me
      ensures k in h' <==> IsTip(p', k.ns, k.cid)
      ensures k in h' ==> h'[k] == k.cid.delta.priority
    {
      assert k in h <==> IsTip(processed, k.ns, k.cid);
      assert IsTip(p', k.ns, k.cid) <==> IsTip(processed, k.ns, k.cid) && !NamesHead(n, k.cid);
      if k in h {
        assert k in Superseded(ns, n.links) <==> NamesHead(n, k.cid) by {
          if NamesHead(n, k.cid) {
            var l :| l in n.links && l.name == HEAD && l.cid == k.cid;
            assert HeadKey(ns, l.cid) == k;
          }
        }
        if k in Superseded(ns, n.links) {
          var l :| l in n.links && HeadKey(ns, l.cid) == k;
          assert Reached(h, blocks, ns, n.links);
        }
      }
    }
  }

  /** The condition can fail: a node that comes before everything it links to is a tip, but becomes no head. */
  lemma EarlyNodeIsNoHead(n: Node)
    requires LinksByName(n) && exists l :: l in n.links && l.name == HEAD
    ensures HeadsAreTips(map[], {}) && !HeadsAreTips(Processed(map[], {}, n), {n})
  {
    HeadsStayTipsExactly(map[], {}, {}, n);
    assert {} + {n} == {n};
  }

  class HeadStore {
    var heads: Heads
    constructor ()
      ensures heads == map[]
    {
      heads := map[];
    }
  }

  class DagStore {
    var blocks: set<Node>
    constructor ()
      ensures blocks == {}
    {
      blocks := {};
    }
  }

  class HeadSet {
    const store: HeadStore
    const ns: Namespace

    constructor (store: HeadStore, ns: Namespace)
      ensures this.store == store && this.ns == ns
    {
      this.store := store;
      this.ns := ns;
    }

    method Write(c: Node, height: nat)
      modifies store
      ensures store.heads == old(store.heads)[HeadKey(ns, c) := height]
    {
      store.heads := store.heads[HeadKey(ns, c) := height];
    }

    method IsHead(c: Node) returns (r: bool)
      ensures r <==> HeadKey(ns, c) in store.heads
    {
      r := HeadKey(ns, c) in store.heads;
    }

    method Replace(previous: Node, next: Node, height: nat)
      modifies store
      ensures store.heads == (old(store.heads) - {HeadKey(ns, previous)})[HeadKey(ns, next) := height]
    {
      store.heads := store.heads - {HeadKey(ns, previous)};
      Write(next, height);
    }

    method List() returns (heads: seq<Node>, maxHeight: nat)
      ensures Enumerates(heads, store.heads, ns)
      ensures IsMaxHeight(store.heads, ns, maxHeight)
    {
      var results := set k | k in store.heads && k.ns == ns;
      ghost var all := results;
      heads, maxHeight := [], 0;
      while results != {}
        invariant results <= all
        invariant forall c :: c in heads <==> HeadKey(ns, c) in all - results
        invariant forall i, j :: 0 <= i < j < |heads| ==> heads[i] != heads[j]
        invariant forall k :: k in all - results ==> store.heads[k] <= maxHeight
        invariant maxHeight == 0 || exists k :: k in all - results && store.heads[k] == maxHeight
        decreases results
      {
        var k :| k in results;
        assert k == HeadKey(ns, k.cid);
        results := results - {k};
        heads := heads + [k.cid];
        if store.heads[k] > maxHeight {
          maxHeight := store.heads[k];
        }
      }
    }
  }

  // ---------- The clock ----------

  datatype ReplicatedData = Register(reg: LWWRegister) | Composite(comp: CompositeDAG)

  ghost predicate Matches(crdt: ReplicatedData, d: Delta) {
    match crdt
    case Register(reg) => d.RegisterDelta? && reg.key == d.key
    case Composite(comp) => d.CompositeDelta? && comp.doc == d.doc
  }

  function WithPriority(d: Delta, p: nat): Delta { d.(priority := p) }

  /** `n` is the node that `AddDAGNode` builds: one above the heads, linked to all of them, then to `subs`. */
  ghost predicate IsNextNode(h: Heads, d: Delta, subs: seq<Link>, n: Node) {
    && n.delta.priority > 0
    && n.delta == WithPriority(d, n.delta.priority)
    && IsMaxHeight(h, NamespaceOf(d), n.delta.priority - 1)
    && exists hs :: Enumerates(hs, h, NamespaceOf(d)) && n.links == HeadLinks(hs) + subs
  }

  function HeadLinks(hs: seq<Node>): (ls: seq<Link>)
    ensures |ls| == |hs|
    ensures forall i :: 0 <= i < |hs| ==> ls[i] == Link(HEAD, hs[i])
  {
    if hs == [] then [] else HeadLinks(hs[..|hs| - 1]) + [Link(HEAD, hs[|hs| - 1])]
  }

  /** The heads after a prefix of the links has been scanned. */
  ghost function ScannedHeads(h: Heads, blocks: set<Node>, ns: Namespace, hasHeads: bool, links: seq<Link>,
                              root: Node, prio: nat): Heads
  {
    if !hasHeads || Reached(h, blocks, ns, links)
    then (h - Superseded(ns, links))[HeadKey(ns, root) := prio]
    else h
  }

  lemma ScanStep(h: Heads, blocks: set<Node>, ns: Namespace, hasHeads: bool, links: seq<Link>, i: nat,
                 root: Node, prio: nat)
    requires i < |links| && links[i].cid != root
    ensures
      var before := ScannedHeads(h, blocks, ns, hasHeads, links[..i], root, prio);
      var after := ScannedHeads(h, blocks, ns, hasHeads, links[..i + 1], root, prio);
      var k := HeadKey(ns, links[i].cid);
      && (k in before ==> k in h && after == (before - {k})[HeadKey(ns, root) := prio])
      && (k !in before && links[i].cid in blocks ==> after == before[HeadKey(ns, root) := prio])
      && (k !in before && links[i].cid !in blocks ==> after == before)
  {
    var k := HeadKey(ns, links[i].cid);
    var gone := Superseded(ns, links[..i]);
    assert links[..i + 1] == links[..i] + [links[i]];
    assert Superseded(ns, links[..i + 1]) == gone + {k};
    ReachedNext(h, blocks, ns, links, i);
    DropOne(h, gone, k, HeadKey(ns, root), prio);
    if hasHeads && !Reached(h, blocks, ns, links[..i]) {
      NoneGone(h, blocks, ns, links[..i]);
    } else if k in h && k in gone {
      assert k !in h - gone;
    }
  }

  lemma DropOne(h: Heads, gone: set<HeadKey>, k: HeadKey, me: HeadKey, prio: nat)
    requires k != me
    ensures
      var before, after := (h - gone)[me := prio], (h - (gone + {k}))[me := prio];
      && after == (before - {k})[me := prio] && before == before[me := prio]
      && (k in before <==> k in h && k !in gone) && (k !in before ==> after == before)
  {
    assert h - (gone + {k}) == (h - gone) - {k};
    assert ((h - gone) - {k})[me := prio] == (h - gone)[me := prio] - {k};
  }

  /** Links that reach nothing supersede no head. */
  lemma NoneGone(h: Heads, blocks: set<Node>, ns: Namespace, links: seq<Link>)
    requires !Reached(h, blocks, ns, links)
    ensures h - Superseded(ns, links) == h
  {
  }

  lemma ReachedNext(h: Heads, blocks: set<Node>, ns: Namespace, links: seq<Link>, i: nat)
    requires i < |links|
    ensures Reached(h, blocks, ns, links[..i + 1])
            <==> Reached(h, blocks, ns, links[..i]) || HeadKey(ns, links[i].cid) in h || links[i].cid in blocks
    ensures Unknown(blocks, links[..i + 1])
            == Unknown(blocks, links[..i]) + (if links[i].cid in blocks then [] else [links[i].cid])
  {
    assert links[..i + 1] == links[..i] + [links[i]];
    assert links[..i + 1][..i] == links[..i];
  }

  class MerkleClock {
    const headset: HeadSet
    const dag: DagStore
    const data: DataStore
    const crdt: ReplicatedData

    constructor (heads: HeadStore, dag: DagStore, data: DataStore, ns: Namespace, crdt: ReplicatedData)
      requires match crdt case Register(reg) => reg.store == data case Composite(comp) => comp.store == data
      ensures fresh(headset) && headset.store == heads && headset.ns == ns
      ensures this.dag == dag && this.data == data && this.crdt == crdt && Valid()
    {
      this.headset := new HeadSet(heads, ns);
      this.dag := dag;
      this.data := data;
      this.crdt := crdt;
    }

    ghost predicate Valid() {
      match crdt
      case Register(reg) => reg.store == data
      case Composite(comp) => comp.store == data
    }

    method MergeData(delta: Delta) returns (r: Outcome)
      requires Valid()
      modifies data
      ensures Matches(crdt, delta) ==> data.data == MergeDelta(old(data.data), delta)
      ensures Matches(crdt, delta) ==> (r == Ok <==> Mergeable(old(data.data), delta))
      ensures r != Ok ==> data.data == old(data.data)
    {
      match crdt
      case Register(reg) => r := reg.Merge(delta);
      case Composite(comp) => comp.Merge(delta); r := Ok;
    }

    method ProcessNode(root: Node, rootPrio: nat, delta: Delta, node: Node) returns (r: Outcome, children: seq<Node>)
      requires Valid()
      requires forall l :: l in node.links ==> l.cid != root
      modifies data, headset.store
      ensures Matches(crdt, delta) ==> data.data == MergeDelta(old(data.data), delta)
      ensures Matches(crdt, delta) ==> (r == Ok <==> Mergeable(old(data.data), delta))
      ensures r != Ok ==> children == [] && headset.store.heads == old(headset.store.heads)
      ensures r == Ok ==> headset.store.heads
                          == HeadsAfter(old(headset.store.heads), dag.blocks, headset.ns, root, rootPrio, node.links)
      ensures r == Ok && HeadsStored(old(headset.store.heads), dag.blocks) ==>
                children == Unknown(dag.blocks, node.links)
    {
      r := MergeData(delta);
      if r != Ok {
        return r, [];
      }
      ghost var h := headset.store.heads;
      var links := node.links;
      var hasHeads := HasHeads(links);
      if !hasHeads {
        headset.Write(root, rootPrio);
      }
      children := [];
      for i := 0 to |links|
        modifies headset.store
        invariant headset.store.heads == ScannedHeads(h, dag.blocks, headset.ns, hasHeads, links[..i], root, rootPrio)
        invariant HeadsStored(h, dag.blocks) ==> children == Unknown(dag.blocks, links[..i])
      {
        ScanStep(h, dag.blocks, headset.ns, hasHeads, links, i, root, rootPrio);
        ReachedNext(h, dag.blocks, headset.ns, links, i);
        var linkCid := links[i].cid;
        var isHead := headset.IsHead(linkCid);
        if isHead {
          headset.Replace(linkCid, root, rootPrio);
          continue;
        }
        if linkCid in dag.blocks {
          headset.Write(root, rootPrio);
          continue;
        }
        children := children + [linkCid];
      }
      assert links[..|links|] == links;
    }

    method HasHeads(links: seq<Link>) returns (r: bool)
      ensures r <==> exists l :: l in links && l.name == HEAD
    {
      for i := 0 to |links|
        invariant forall j :: 0 <= j < i ==> links[j].name != HEAD
      {
        if links[i].name == HEAD {
          return true;
        }
      }
      return false;
    }

    method AddDAGNode(delta: Delta, subs: seq<Link>) returns (r: Outcome, node: Node)
      requires Valid() && Matches(crdt, delta) && headset.ns == NamespaceOf(delta)
      modifies data, headset.store, dag
      ensures IsNextNode(old(headset.store.heads), delta, subs, node)
      ensures dag.blocks == old(dag.blocks) + {node}
      ensures data.data == MergeDelta(old(data.data), node.delta)
      ensures r == Ok ==> headset.store.heads == HeadsAfter(old(headset.store.heads), dag.blocks, headset.ns,
                                                            node, node.delta.priority, node.links)
    {
      var heads, height := headset.List();
      height := height + 1;
      node := Node(WithPriority(delta, height), HeadLinks(heads) + subs);
      assert IsNextNode(headset.store.heads, delta, subs, node);
      dag.blocks := dag.blocks + {node};
      var children;
      r, children := ProcessNode(node, height, node.delta, node);
    }
  }
}
