/**
 Reading an old version of a document (db/fetcher/versioned.go): copy the commit graph below a CID into a
 transient store, queue the composite commits, and merge them again, oldest first. A field is named by its
 identifier here.
 */
module Versioned {
  import opened Options
  import opened Crdt
  import opened Clock
  import opened Replicas

  // ---------- Seeking ----------

  /** The transient block store and the queue of commits to merge. */
  datatype Seek = Seek(local: set<Node>, queue: seq<Node>)

  function FirstHead(links: seq<Link>): Option<Node> {
    if links == [] then None
    else if links[0].name == HEAD then Some(links[0].cid)
    else FirstHead(links[1..])
  }

  lemma {:induction false} FirstHeadIsLink(links: seq<Link>)
    ensures FirstHead(links).Some? ==> Link(HEAD, FirstHead(links).value) in links
    ensures FirstHead(links).None? ==> forall l :: l in links ==> l.name != HEAD
  {
    if links != [] && links[0].name != HEAD {
      FirstHeadIsLink(links[1..]);
      assert links == [links[0]] + links[1..];
    }
  }

  /** What `seekNext` leaves: None when a block is missing from the global store. */
  function Sought(global: set<Node>, s: Seek, c: Node, top: bool): Option<Seek>
    decreases c, |c.links| + 1
  {
    if c in s.local then Some(s)
    else if c !in global then None
    else
      var s1 := Seek(s.local + {c}, if top then [c] + s.queue else s.queue);
      FirstHeadIsLink(c.links);
      var s2 := if FirstHead(c.links).Some? then Sought(global, s1, FirstHead(c.links).value, true) else Some(s1);
      if s2.None? then None else SoughtLinks(global, s2.value, c, 0)
  }

  function SoughtLinks(global: set<Node>, s: Seek, c: Node, i: nat): Option<Seek>
    requires i <= |c.links|
    decreases c, |c.links| - i
  {
    if i == |c.links| then Some(s)
    else if c.links[i].name == HEAD then SoughtLinks(global, s, c, i + 1)
    else
      var s1 := Sought(global, s, c.links[i].cid, false);
      if s1.None? then None else SoughtLinks(global, s1.value, c, i + 1)
  }

  // ---------- Replaying ----------

  /** The deltas that merging one commit merges: its own, then those of its fields. */
  function CommitDeltas(c: Node): seq<Delta> { [c.delta] + SubDeltas(c.links) }

  function SubDeltas(links: seq<Link>): seq<Delta> {
    if links == [] then []
    else SubDeltas(links[..|links| - 1])
         + (if links[|links| - 1].name == HEAD then [] else [links[|links| - 1].cid.delta])
  }

  function ReplayDeltas(queue: seq<Node>): seq<Delta> {
    if queue == [] then [] else ReplayDeltas(queue[..|queue| - 1]) + CommitDeltas(queue[|queue| - 1])
  }

  lemma {:induction false} MergeAllConcat(s: Data, a: seq<Delta>, b: seq<Delta>)
    ensures MergeAll(s, a + b) == MergeAll(MergeAll(s, a), b)
  {
    if b == [] {
      assert a + b == a;
    } else {
      assert (a + b)[..|a + b| - 1] == a + b[..|b| - 1];
      MergeAllConcat(s, a, b[..|b| - 1]);
    }
  }

  // ---------- Linear histories ----------

  /** The replica before each of the nodes is processed, and at the end. */
  function Trail(r: Replica, ns: seq<Node>): (rs: seq<Replica>)
    ensures |rs| == |ns| + 1
  {
    if ns == [] then [r]
    else
      var rs := Trail(r, ns[..|ns| - 1]);
      rs + [Process(rs[|ns| - 1], ns[|ns| - 1])]
  }

  ghost predicate StepsTo(rs: seq<Replica>, ns: seq<Node>, i: nat)
    requires i < |ns| && |rs| == |ns| + 1
  {
    rs[i + 1] == Process(rs[i], ns[i])
  }

  ghost predicate IsTrail(rs: seq<Replica>, r: Replica, ns: seq<Node>) {
    && |rs| == |ns| + 1 && rs[0] == r
    && forall i: nat {:trigger StepsTo(rs, ns, i)} :: i < |ns| ==> StepsTo(rs, ns, i)
  }

  lemma {:induction false} TrailIs(r: Replica, ns: seq<Node>)
    ensures IsTrail(Trail(r, ns), r, ns)
  {
    if ns != [] {
      var init, rs := ns[..|ns| - 1], Trail(r, ns);
      TrailIs(r, init);
      assert rs[..|ns|] == Trail(r, init);
      forall i: nat | i < |ns| ensures StepsTo(rs, ns, i) {
        if i < |init| {
          assert StepsTo(Trail(r, init), init, i);
        }
      }
    }
  }

  function ProcessAll(r: Replica, ns: seq<Node>): Replica { Trail(r, ns)[|ns|] }

  /** One commit: register nodes for any distinct fields and then the composite, or a delete. */
  datatype Commit = Save(fields: seq<Node>, subs: seq<Link>, node: Node) | Delete(subs: seq<Link>, node: Node)

  ghost predicate IsField(doc: DocId, n: Node) {
    n.delta.RegisterDelta? && n.delta.Valid() && n.delta.key.doc == doc
  }

  /** The i-th register node is made by the clock on top of the ones before it. */
  ghost predicate MadeNext(rs: seq<Replica>, fields: seq<Node>, i: nat)
    requires i < |fields| < |rs|
  {
    IsNextNode(rs[i].heads, fields[i].delta, [], fields[i])
  }

  /** Register nodes for distinct fields. */
  ghost predicate FieldsWritten(rs: seq<Replica>, doc: DocId, fields: seq<Node>)
    requires |rs| == |fields| + 1
  {
    && (forall n :: n in fields ==> IsField(doc, n))
    && (forall i: nat {:trigger MadeNext(rs, fields, i)} :: i < |fields| ==> MadeNext(rs, fields, i))
    && (forall i, j :: 0 <= i < j < |fields| ==> NamespaceOf(fields[i].delta) != NamespaceOf(fields[j].delta))
  }

  ghost predicate IsCommit(r: Replica, doc: DocId, c: Commit) {
    && !IsDeleted(r.data, doc)
    && match c
       case Save(fields, subs, node) =>
         && FieldsWritten(Trail(r, fields), doc, fields)
         && (forall l :: l in subs ==> l.cid in fields && l.name == l.cid.delta.key.field && l.name != HEAD)
         && (forall f :: f in fields ==> Link(f.delta.key.field, f) in subs)
         && IsNextNode(ProcessAll(r, fields).heads, CompositeDelta(doc, 0, Active), subs, node)
       case Delete(subs, node) =>
         && PrimaryKey(doc) in r.data && DeleteLinks(r.heads, doc, subs)
         && IsNextNode(r.heads, CompositeDelta(doc, 0, Deleted), subs, node)
  }

  function Committed(r: Replica, c: Commit): Replica {
    match c
    case Save(fields, _, node) => Process(ProcessAll(r, fields), node)
    case Delete(_, node) => Process(r, node)
  }

  function After(cs: seq<Commit>): Replica {
    if cs == [] then FRESH else Committed(After(cs[..|cs| - 1]), cs[|cs| - 1])
  }

  ghost predicate IsHistory(doc: DocId, cs: seq<Commit>) {
    forall k :: 0 <= k < |cs| ==> IsCommit(After(cs[..k]), doc, cs[k])
  }

  lemma HeadLinksAreHeads(hs: seq<Node>, l: Link)
    requires l in HeadLinks(hs)
    ensures l.name == HEAD
  {
  }

  /** A node made without further links has only `_head` links. */
  lemma OnlyHeadLinks(h: Heads, n: Node)
    requires IsNextNode(h, n.delta, [], n)
    ensures forall l :: l in n.links ==> l.name == HEAD
  {
    var hs :| Enumerates(hs, h, NamespaceOf(n.delta)) && n.links == HeadLinks(hs) + [];
    forall l | l in n.links ensures l.name == HEAD { HeadLinksAreHeads(hs, l); }
  }

  lemma NextField(q: Replica, doc: DocId, n: Node)
    requires Good(q) && IsField(doc, n) && IsNextNode(q.heads, n.delta, [], n)
    ensures Good(Process(q, n))
    ensures forall l :: l in n.links ==>
              l.name == HEAD && l.cid in q.blocks && NamespaceOf(l.cid.delta) == NamespaceOf(n.delta)
  {
    OnlyHeadLinks(q.heads, n);
    LocalNodeIsNew(q, n.delta, [], n);
    ProcessKeepsGood(q, n);
  }

  lemma LinksEarlier(r: Replica, init: seq<Node>, blocks: set<Node>, n: Node)
    requires blocks == r.blocks + (set m | m in init)
    requires forall m :: m in init ==> NamespaceOf(m.delta) != NamespaceOf(n.delta)
    requires forall l :: l in n.links ==> l.cid in blocks && NamespaceOf(l.cid.delta) == NamespaceOf(n.delta)
    ensures forall l :: l in n.links ==> l.cid in r.blocks
  {
  }

  lemma FieldStep(rs: seq<Replica>, doc: DocId, fields: seq<Node>, k: nat)
    requires k < |fields| && |rs| == |fields| + 1 && Good(rs[k]) && IsField(doc, fields[k])
    requires StepsTo(rs, fields, k) && MadeNext(rs, fields, k)
    ensures Good(rs[k + 1])
  {
    NextField(rs[k], doc, fields[k]);
  }

  lemma {:induction false} FieldsKeepGood(rs: seq<Replica>, r: Replica, doc: DocId, fields: seq<Node>, k: nat)
    requires Good(r) && IsTrail(rs, r, fields) && FieldsWritten(rs, doc, fields) && k <= |fields|
    ensures Good(rs[k])
  {
    if k > 0 {
      FieldsKeepGood(rs, r, doc, fields, k - 1);
      FieldStep(rs, doc, fields, k - 1);
    }
  }

  lemma {:induction false} BlocksAfter(rs: seq<Replica>, r: Replica, ns: seq<Node>, k: nat)
    requires IsTrail(rs, r, ns) && k <= |ns|
    ensures rs[k].blocks == r.blocks + (set n | n in ns[..k])
  {
    if k > 0 {
      BlocksAfter(rs, r, ns, k - 1);
      assert StepsTo(rs, ns, k - 1);
      assert forall m :: m in ns[..k] <==> m in ns[..k - 1] || m == ns[k - 1];
    }
  }

  /** While a commit writes its fields, each field node links only to nodes of earlier commits. */
  lemma FieldsLinkEarlier(rs: seq<Replica>, r: Replica, doc: DocId, fields: seq<Node>, i: nat)
    requires Good(r) && IsTrail(rs, r, fields) && FieldsWritten(rs, doc, fields) && i < |fields|
    ensures forall l :: l in fields[i].links ==> l.name == HEAD && l.cid in r.blocks
  {
    FieldsKeepGood(rs, r, doc, fields, i);
    assert MadeNext(rs, fields, i);
    NextField(rs[i], doc, fields[i]);
    BlocksAfter(rs, r, fields, i);
    LinksEarlier(r, fields[..i], rs[i].blocks, fields[i]);
  }

  function CompositeSpace(doc: DocId): Namespace { Namespace(doc.docKey, COMPOSITE_NAMESPACE) }

  /** The composite DAG has no head, or this one. */
  ghost predicate OnlyHead(h: Heads, doc: DocId, prev: Option<Node>) {
    forall c :: HeadKey(CompositeSpace(doc), c) in h <==> prev == Some(c)
  }

  lemma {:induction false} FieldsKeepOnlyHead(rs: seq<Replica>, r: Replica, doc: DocId, fields: seq<Node>, k: nat,
                                              prev: Option<Node>)
    requires k <= |fields| && IsTrail(rs, r, fields) && OnlyHead(r.heads, doc, prev)
    requires forall n :: n in fields ==> IsField(doc, n)
    ensures OnlyHead(rs[k].heads, doc, prev)
  {
    if k > 0 {
      FieldsKeepOnlyHead(rs, r, doc, fields, k - 1, prev);
      assert StepsTo(rs, fields, k - 1);
      assert IsField(doc, fields[k - 1]) && NamespaceOf(fields[k - 1].delta) != CompositeSpace(doc);
    }
  }

  /** What the node of a commit looks like: below it the previous commit, and the fields it has just written. */
  ghost predicate CommitShape(prev: Option<Node>, before: set<Node>, after: set<Node>, c: Node) {
    && c !in before && c in after && before <= after
    && (forall l :: l in c.links && l.name == HEAD ==> prev == Some(l.cid))
    && (prev.Some? ==> Link(HEAD, prev.value) in c.links)
    && (forall l :: l in c.links && l.name != HEAD ==>
          l.cid in after && forall m :: m in l.cid.links ==> m.name == HEAD && m.cid in before)
    && (forall b :: b in after ==> b in before || b == c || exists l :: l in c.links && l.name != HEAD && l.cid == b)
  }

  /** A local composite becomes the only head of its DAG. */
  lemma CompositeIsOnlyHead(q: Replica, doc: DocId, d: Delta, subs: seq<Link>, n: Node)
    requires NamespaceOf(d) == CompositeSpace(doc) && IsNextNode(q.heads, d, subs, n)
    requires HeadKey(CompositeSpace(doc), n) in Process(q, n).heads
    ensures OnlyHead(Process(q, n).heads, doc, Some(n))
  {
    var ns := CompositeSpace(doc);
    var hs :| Enumerates(hs, q.heads, ns) && n.links == HeadLinks(hs) + subs;
    forall c | c != n ensures HeadKey(ns, c) !in Process(q, n).heads {
      if HeadKey(ns, c) in q.heads {
        var i :| 0 <= i < |hs| && hs[i] == c;
        assert n.links[i] == Link(HEAD, c) && HeadKey(ns, c) in Superseded(ns, n.links);
        assert Reached(q.heads, q.blocks + {n}, ns, n.links);
      }
    }
  }

  lemma SaveIsGood(r: Replica, doc: DocId, c: Commit, prev: Option<Node>)
    requires Good(r) && OnlyHead(r.heads, doc, prev) && IsCommit(r, doc, c) && c.Save?
    ensures Good(Committed(r, c)) && OnlyHead(Committed(r, c).heads, doc, Some(c.node))
    ensures c.node !in ProcessAll(r, c.fields).blocks
    ensures OnlyHead(ProcessAll(r, c.fields).heads, doc, prev)
  {
    var q, d := ProcessAll(r, c.fields), CompositeDelta(doc, 0, Active);
    TrailIs(r, c.fields);
    FieldsKeepGood(Trail(r, c.fields), r, doc, c.fields, |c.fields|);
    FieldsKeepOnlyHead(Trail(r, c.fields), r, doc, c.fields, |c.fields|, prev);
    assert FieldSubs(d, c.subs) by {
      forall l | l in c.subs ensures NamespaceOf(l.cid.delta) != NamespaceOf(d) { assert IsField(doc, l.cid); }
    }
    LocalNodeIsNew(q, d, c.subs, c.node);
    ProcessKeepsGood(q, c.node);
    CompositeIsOnlyHead(q, doc, d, c.subs, c.node);
  }

  lemma SaveShape(r: Replica, doc: DocId, c: Commit, prev: Option<Node>)
    requires IsCommit(r, doc, c) && c.Save? && c.node !in ProcessAll(r, c.fields).blocks
    requires OnlyHead(ProcessAll(r, c.fields).heads, doc, prev)
    requires forall n :: n in c.fields ==> forall m :: m in n.links ==> m.name == HEAD && m.cid in r.blocks
    ensures CommitShape(prev, r.blocks, Committed(r, c).blocks, c.node)
  {
    TrailIs(r, c.fields);
    BlocksAfter(Trail(r, c.fields), r, c.fields, |c.fields|);
    assert c.fields[..|c.fields|] == c.fields;
    LinksOfNext(ProcessAll(r, c.fields).heads, doc, CompositeDelta(doc, 0, Active), c.subs, c.node, prev);
    SaveLinks(r.blocks, c.fields, c.subs, c.node, prev);
  }

  lemma SaveLinks(before: set<Node>, fields: seq<Node>, subs: seq<Link>, c: Node, prev: Option<Node>)
    requires forall n :: n in fields ==> n.delta.RegisterDelta?
    requires forall l :: l in subs ==> l.cid in fields && l.name == l.cid.delta.key.field && l.name != HEAD
    requires forall n :: n in fields ==> Link(n.delta.key.field, n) in subs
    requires forall n :: n in fields ==> forall m :: m in n.links ==> m.name == HEAD && m.cid in before
    requires forall l :: l in c.links <==> l in subs || (prev.Some? && l == Link(HEAD, prev.value))
    requires c !in before && c !in fields
    ensures CommitShape(prev, before, before + (set n | n in fields) + {c}, c)
  {
    forall n | n in fields ensures exists l :: l in c.links && l.name != HEAD && l.cid == n {
      assert Link(n.delta.key.field, n) in c.links;
    }
  }

  lemma LinksOfNext(h: Heads, doc: DocId, d: Delta, subs: seq<Link>, n: Node, prev: Option<Node>)
    requires NamespaceOf(d) == CompositeSpace(doc) && OnlyHead(h, doc, prev) && IsNextNode(h, d, subs, n)
    ensures forall l :: l in n.links <==> l in subs || (prev.Some? && l == Link(HEAD, prev.value))
  {
    var hs :| Enumerates(hs, h, CompositeSpace(doc)) && n.links == HeadLinks(hs) + subs;
    assert forall c :: c in hs <==> HeadKey(CompositeSpace(doc), c) in h;
    assert forall i :: 0 <= i < |hs| ==> hs[i] in hs && HeadLinks(hs)[i] == Link(HEAD, hs[i]);
    if prev.Some? {
      assert prev.value in hs;
      var i :| 0 <= i < |hs| && hs[i] == prev.value;
      assert n.links[i] == Link(HEAD, prev.value);
    }
  }

  lemma DeleteIsGood(r: Replica, doc: DocId, c: Commit)
    requires Good(r) && IsCommit(r, doc, c) && c.Delete?
    ensures Good(Committed(r, c)) && OnlyHead(Committed(r, c).heads, doc, Some(c.node)) && c.node !in r.blocks
  {
    var d := CompositeDelta(doc, 0, Deleted);
    DeleteLinksAreHeads(r.heads, doc, c.subs);
    LocalNodeIsNew(r, d, c.subs, c.node);
    ProcessKeepsGood(r, c.node);
    CompositeIsOnlyHead(r, doc, d, c.subs, c.node);
  }

  lemma DeleteLinksAreHeads(h: Heads, doc: DocId, subs: seq<Link>)
    requires DeleteLinks(h, doc, subs)
    ensures HeadSubs(h, CompositeDelta(doc, 0, Deleted), subs)
  {
    var hs :| Enumerates(hs, h, CompositeSpace(doc)) && subs == HeadLinks(hs);
  }

  lemma DeleteShape(r: Replica, doc: DocId, c: Commit, prev: Option<Node>)
    requires OnlyHead(r.heads, doc, prev) && IsCommit(r, doc, c) && c.Delete? && c.node !in r.blocks
    ensures CommitShape(prev, r.blocks, Committed(r, c).blocks, c.node)
  {
    DeleteLinksAreHeads(r.heads, doc, c.subs);
    LinksOfNext(r.heads, doc, CompositeDelta(doc, 0, Deleted), c.subs, c.node, prev);
  }

  /** The composite of commit k, counting from 1. */
  function NodeAt(cs: seq<Commit>, k: nat): Option<Node>
    requires k <= |cs|
  {
    if k == 0 then None else Some(cs[k - 1].node)
  }

  /** One commit, as a step between replicas: it stays good, and its node has the shape of a commit. */
  lemma CommitStep(r: Replica, doc: DocId, c: Commit, prev: Option<Node>)
    requires Good(r) && OnlyHead(r.heads, doc, prev) && IsCommit(r, doc, c)
    ensures Good(Committed(r, c)) && OnlyHead(Committed(r, c).heads, doc, Some(c.node))
    ensures CommitShape(prev, r.blocks, Committed(r, c).blocks, c.node)
  {
    match c
    case Save(fields, _, _) =>
      SaveIsGood(r, doc, c, prev);
      TrailIs(r, fields);
      forall n | n in fields ensures forall m :: m in n.links ==> m.name == HEAD && m.cid in r.blocks {
        var i :| 0 <= i < |fields| && fields[i] == n;
        FieldsLinkEarlier(Trail(r, fields), r, doc, fields, i);
      }
      SaveShape(r, doc, c, prev);
    case Delete(_, _) =>
      DeleteIsGood(r, doc, c);
      DeleteShape(r, doc, c, prev);
  }

  lemma AfterNext(cs: seq<Commit>, k: nat)
    requires k < |cs|
    ensures After(cs[..k + 1]) == Committed(After(cs[..k]), cs[k])
  {
    assert cs[..k + 1][..k] == cs[..k];
  }

  lemma {:induction false} HistoryIsGood(doc: DocId, cs: seq<Commit>, k: nat)
    requires IsHistory(doc, cs) && k <= |cs|
    ensures Good(After(cs[..k])) && OnlyHead(After(cs[..k]).heads, doc, NodeAt(cs, k))
  {
    if k == 0 {
      EmptyRepresentsNothing();
      assert Deltas({}) == {};
    } else {
      HistoryIsGood(doc, cs, k - 1);
      AfterNext(cs, k - 1);
      CommitStep(After(cs[..k - 1]), doc, cs[k - 1], NodeAt(cs, k - 1));
    }
  }

  // ---------- Seeking a history ----------

  ghost function SubTargets(links: seq<Link>): set<Node> {
    set l | l in links && l.name != HEAD :: l.cid
  }

  /** Field nodes whose own links are already local are copied without touching the queue. */
  lemma {:induction false} SeekFields(global: set<Node>, s: Seek, c: Node, i: nat)
    requires i <= |c.links|
    requires forall l :: l in c.links && l.name != HEAD ==>
               l.cid in global && forall m :: m in l.cid.links ==> m.name == HEAD && m.cid in s.local
    ensures SoughtLinks(global, s, c, i) == Some(Seek(s.local + SubTargets(c.links[i..]), s.queue))
    decreases |c.links| - i
  {
    if i == |c.links| {
      assert s.local + SubTargets(c.links[i..]) == s.local;
    } else {
      var l := c.links[i];
      assert c.links[i..] == [l] + c.links[i + 1..];
      assert SubTargets(c.links[i..]) == (if l.name == HEAD then {} else {l.cid}) + SubTargets(c.links[i + 1..]);
      if l.name == HEAD {
        SeekFields(global, s, c, i + 1);
        assert SubTargets(c.links[i..]) == SubTargets(c.links[i + 1..]);
      } else {
        SeekOneField(global, s, l.cid);
        var s1 := Seek(s.local + {l.cid}, s.queue);
        SeekFields(global, s1, c, i + 1);
        assert s1.local + SubTargets(c.links[i + 1..]) == s.local + SubTargets(c.links[i..]);
      }
    }
  }

  lemma SeekOneField(global: set<Node>, s: Seek, n: Node)
    requires n in global && forall m :: m in n.links ==> m.name == HEAD && m.cid in s.local
    ensures Sought(global, s, n, false) == Some(Seek(s.local + {n}, s.queue))
  {
    if n in s.local {
      assert s.local + {n} == s.local;
    } else {
      FirstHeadIsLink(n.links);
      var s1 := Seek(s.local + {n}, s.queue);
      SkipHeads(global, s1, n, 0);
    }
  }

  lemma {:induction false} SkipHeads(global: set<Node>, s: Seek, c: Node, i: nat)
    requires i <= |c.links| && forall m :: m in c.links ==> m.name == HEAD
    ensures SoughtLinks(global, s, c, i) == Some(s)
    decreases |c.links| - i
  {
    if i < |c.links| {
      assert c.links[i] in c.links;
      SkipHeads(global, s, c, i + 1);
    }
  }

  /** Seeking one commit, given what seeking the previous one does. */
  lemma SeekCommit(global: set<Node>, s: Seek, c: Node, prev: Option<Node>, before: set<Node>, after: set<Node>,
                   s2: Seek)
    requires CommitShape(prev, before, after, c) && after <= global && c !in s.local
    requires
      var s1 := Seek(s.local + {c}, [c] + s.queue);
      && s2.local == s1.local + before
      && if prev.None? then s2.queue == s1.queue && before == {} else Sought(global, s1, prev.value, true) == Some(s2)
    ensures Sought(global, s, c, true) == Some(Seek(s.local + after, s2.queue))
  {
    var s1 := Seek(s.local + {c}, [c] + s.queue);
    FirstHeadIsLink(c.links);
    assert FirstHead(c.links) == prev;
    if prev.None? {
      assert s2 == s1;
    }
    SeekFields(global, s2, c, 0);
    SeekTotal(s.local, before, after, c);
  }

  /** A chain of commits `ns` and the blocks `bs[k]` that exist after the first k of them. */
  ghost predicate Chain(bs: seq<set<Node>>, ns: seq<Node>) {
    && |bs| == |ns| + 1 && bs[0] == {}
    && forall k :: 0 <= k < |ns| ==> CommitShape(if k == 0 then None else Some(ns[k - 1]), bs[k], bs[k + 1], ns[k])
  }

  /** Seeking commit k copies exactly the blocks of the first k commits and queues their composites, oldest first. */
  lemma {:induction false} SeekChain(global: set<Node>, bs: seq<set<Node>>, ns: seq<Node>, k: nat, s: Seek)
    requires Chain(bs, ns) && 0 < k <= |ns| && bs[k] <= global && s.local !! bs[k]
    ensures Sought(global, s, ns[k - 1], true) == Some(Seek(s.local + bs[k], ns[..k] + s.queue))
  {
    var c := ns[k - 1];
    assert CommitShape(if k == 1 then None else Some(ns[k - 2]), bs[k - 1], bs[k], c);
    var s1 := Seek(s.local + {c}, [c] + s.queue);
    assert ns[..k] + s.queue == ns[..k - 1] + s1.queue;
    var s2 := Seek(s1.local + bs[k - 1], ns[..k] + s.queue);
    if k == 1 {
      SeekCommit(global, s, c, None, bs[0], bs[1], s2);
    } else {
      SeekChain(global, bs, ns, k - 1, s1);
      SeekCommit(global, s, c, Some(ns[k - 2]), bs[k - 1], bs[k], s2);
    }
  }

  lemma SeekTotal(local: set<Node>, before: set<Node>, after: set<Node>, c: Node)
    requires exists prev :: CommitShape(prev, before, after, c)
    ensures local + {c} + before + SubTargets(c.links[0..]) == local + after
    ensures before == {} ==> local + {c} + SubTargets(c.links[0..]) == local + after
  {
    assert c.links[0..] == c.links;
    var prev :| CommitShape(prev, before, after, c);
    forall b | b in after && b !in before && b != c ensures b in SubTargets(c.links) {
      var l :| l in c.links && l.name != HEAD && l.cid == b;
    }
  }

  // ---------- Replaying a history ----------

  lemma {:induction false} SubDeltasElements(links: seq<Link>)
    ensures Elements(SubDeltas(links)) == Deltas(SubTargets(links))
  {
    if links == [] {
      assert Elements(SubDeltas(links)) == {};
    } else {
      var init, l := links[..|links| - 1], links[|links| - 1];
      SubDeltasElements(init);
      assert links == init + [l];
      if l.name == HEAD {
        assert SubTargets(links) == SubTargets(init);
      } else {
        assert SubTargets(links) == SubTargets(init) + {l.cid};
        assert Elements(SubDeltas(links)) == Elements(SubDeltas(init)) + {l.cid.delta};
        assert Deltas(SubTargets(links)) == Deltas(SubTargets(init)) + {l.cid.delta};
      }
    }
  }

  lemma {:induction false} ReplayElements(bs: seq<set<Node>>, ns: seq<Node>, k: nat)
    requires Chain(bs, ns) && k <= |ns|
    ensures Elements(ReplayDeltas(ns[..k])) == Deltas(bs[k])
  {
    if k == 0 {
      assert Deltas({}) == {};
    } else {
      var c := ns[k - 1];
      ReplayElements(bs, ns, k - 1);
      SubDeltasElements(c.links);
      assert CommitShape(if k == 1 then None else Some(ns[k - 2]), bs[k - 1], bs[k], c);
      SeekTotal({}, bs[k - 1], bs[k], c);
      assert c.links[0..] == c.links;
      assert bs[k] == bs[k - 1] + {c} + SubTargets(c.links);
      assert ns[..k][..k - 1] == ns[..k - 1];
      ElementsConcat(ReplayDeltas(ns[..k - 1]), CommitDeltas(c));
      ElementsConcat([c.delta], SubDeltas(c.links));
      DeltasOfUnion(bs[k - 1], {c});
      DeltasOfUnion(bs[k - 1] + {c}, SubTargets(c.links));
      assert Deltas({c}) == {c.delta} == Elements([c.delta]);
    }
  }

  lemma ElementsConcat(a: seq<Delta>, b: seq<Delta>)
    ensures Elements(a + b) == Elements(a) + Elements(b)
  {
  }

  lemma DeltasOfUnion(a: set<Node>, b: set<Node>)
    ensures Deltas(a + b) == Deltas(a) + Deltas(b)
  {
  }

  // ---------- Time travel ----------

  ghost function BlocksOf(cs: seq<Commit>): seq<set<Node>> {
    seq(|cs| + 1, k requires 0 <= k <= |cs| => After(cs[..k]).blocks)
  }

  function Composites(cs: seq<Commit>): seq<Node> {
    seq(|cs|, k requires 0 <= k < |cs| => cs[k].node)
  }

  lemma CommitOfHistory(doc: DocId, cs: seq<Commit>, k: nat)
    requires IsHistory(doc, cs) && k < |cs|
    ensures CommitShape(NodeAt(cs, k), After(cs[..k]).blocks, After(cs[..k + 1]).blocks, cs[k].node)
  {
    HistoryIsGood(doc, cs, k);
    AfterNext(cs, k);
    CommitStep(After(cs[..k]), doc, cs[k], NodeAt(cs, k));
  }

  lemma HistoryIsChain(doc: DocId, cs: seq<Commit>)
    requires IsHistory(doc, cs)
    ensures Chain(BlocksOf(cs), Composites(cs))
  {
    forall k | 0 <= k < |cs| { CommitOfHistory(doc, cs, k); }
  }

  lemma {:induction false} BlocksGrow(bs: seq<set<Node>>, ns: seq<Node>, k: nat, j: nat)
    requires Chain(bs, ns) && k <= j <= |ns|
    ensures bs[k] <= bs[j]
  {
    if k < j {
      BlocksGrow(bs, ns, k, j - 1);
      assert CommitShape(if j == 1 then None else Some(ns[j - 2]), bs[j - 1], bs[j], ns[j - 1]);
    }
  }

  lemma ReplayIsExact(data: Data, blocks: set<Node>, ds: seq<Delta>)
    requires Represents(data, Deltas(blocks)) && AllValid(Deltas(blocks)) && Elements(ds) == Deltas(blocks)
    ensures MergeAll(map[], ds) == data
  {
    EmptyRepresentsNothing();
    MergeAllRepresents(map[], {}, ds);
    assert {} + Elements(ds) == Deltas(blocks);
    RepresentsUnique(MergeAll(map[], ds), data, Deltas(blocks));
  }

  lemma HistoryData(doc: DocId, cs: seq<Commit>, k: nat)
    requires IsHistory(doc, cs) && k <= |cs|
    ensures Represents(After(cs[..k]).data, Deltas(After(cs[..k]).blocks))
    ensures AllValid(Deltas(After(cs[..k]).blocks))
  {
    HistoryIsGood(doc, cs, k);
    DeltasValid(After(cs[..k]).blocks);
  }

  lemma SeekIsExact(global: set<Node>, bs: seq<set<Node>>, ns: seq<Node>, k: nat)
    requires Chain(bs, ns) && 0 < k <= |ns| && bs[k] <= global
    ensures Sought(global, Seek({}, []), ns[k - 1], true) == Some(Seek(bs[k], ns[..k]))
  {
    SeekChain(global, bs, ns, k, Seek({}, []));
    assert {} + bs[k] == bs[k] && ns[..k] + [] == ns[..k];
  }

  lemma ReplayChain(bs: seq<set<Node>>, ns: seq<Node>, k: nat, data: Data)
    requires Chain(bs, ns) && k <= |ns| && Represents(data, Deltas(bs[k])) && AllValid(Deltas(bs[k]))
    ensures MergeAll(map[], ReplayDeltas(ns[..k])) == data
  {
    ReplayElements(bs, ns, k);
    ReplayIsExact(data, bs[k], ReplayDeltas(ns[..k]));
  }

  /**
   Time travel is exact: seeking the k-th commit of any local history, among whatever other blocks, from a fresh
   transient store queues the composites of the first k commits, and replaying them rebuilds the data that held right
   after commit k.
   */
  lemma TimeTravelIsExact(global: set<Node>, doc: DocId, cs: seq<Commit>, k: nat)
    requires IsHistory(doc, cs) && 0 < k <= |cs| && After(cs[..k]).blocks <= global
    ensures Sought(global, Seek({}, []), cs[k - 1].node, true)
            == Some(Seek(After(cs[..k]).blocks, Composites(cs)[..k]))
    ensures MergeAll(map[], ReplayDeltas(Composites(cs)[..k])) == After(cs[..k]).data
  {
    HistoryIsChain(doc, cs);
    SeekIsExact(global, BlocksOf(cs), Composites(cs), k);
    HistoryData(doc, cs, k);
    ReplayChain(BlocksOf(cs), Composites(cs), k, After(cs[..k]).data);
  }

  /** A commit of this document whose fields are in the schema and whose blocks are local. */
  ghost predicate Fits(blocks: set<Node>, doc: DocId, schema: set<string>, c: Node) {
    && c in blocks && c.delta.CompositeDelta? && c.delta.doc == doc
    && forall l :: l in c.links && l.name != HEAD ==>
         && l.cid in blocks && l.name in schema
         && l.cid.delta.RegisterDelta? && l.cid.delta.key == FieldKey(doc, l.name)
  }

  /** Every field that the history writes is in the schema. */
  ghost predicate Named(schema: set<string>, doc: DocId, cs: seq<Commit>) {
    forall k :: 0 <= k < |cs| && cs[k].Save? ==>
      forall n :: n in cs[k].fields && IsField(doc, n) ==> n.delta.key.field in schema
  }

  /** The links of a commit's node: `_head` links and the field links of a save. */
  lemma CommitLinks(r: Replica, doc: DocId, c: Commit, l: Link)
    requires IsCommit(r, doc, c) && l in c.node.links && l.name != HEAD
    ensures c.Save? && l in c.subs && l.cid in c.fields
  {
    var h := if c.Save? then ProcessAll(r, c.fields).heads else r.heads;
    var hs :| Enumerates(hs, h, CompositeSpace(doc)) && c.node.links == HeadLinks(hs) + c.subs;
    assert l !in HeadLinks(hs);
    if c.Delete? {
      DeleteLinksAreHeads(r.heads, doc, c.subs);
    }
  }

  lemma CommitNames(r: Replica, doc: DocId, schema: set<string>, c: Commit)
    requires IsCommit(r, doc, c)
    requires c.Save? ==> forall n :: n in c.fields && IsField(doc, n) ==> n.delta.key.field in schema
    ensures c.node.delta.CompositeDelta? && c.node.delta.doc == doc
    ensures forall l :: l in c.node.links && l.name != HEAD ==>
              l.name in schema && l.cid.delta.RegisterDelta? && l.cid.delta.key == FieldKey(doc, l.name)
  {
    forall l | l in c.node.links && l.name != HEAD
      ensures l.name in schema && l.cid.delta.RegisterDelta? && l.cid.delta.key == FieldKey(doc, l.name)
    {
      CommitLinks(r, doc, c, l);
      assert IsField(doc, l.cid);
    }
  }

  lemma FitsByShape(prev: Option<Node>, before: set<Node>, after: set<Node>, doc: DocId, schema: set<string>, c: Node)
    requires CommitShape(prev, before, after, c) && c.delta.CompositeDelta? && c.delta.doc == doc
    requires forall l :: l in c.links && l.name != HEAD ==>
               l.name in schema && l.cid.delta.RegisterDelta? && l.cid.delta.key == FieldKey(doc, l.name)
    ensures Fits(after, doc, schema, c)
  {
  }

  lemma CommitFits(doc: DocId, schema: set<string>, cs: seq<Commit>, k: nat)
    requires IsHistory(doc, cs) && Named(schema, doc, cs) && k < |cs|
    ensures Fits(After(cs[..k + 1]).blocks, doc, schema, cs[k].node)
  {
    CommitOfHistory(doc, cs, k);
    CommitNames(After(cs[..k]), doc, schema, cs[k]);
    FitsByShape(NodeAt(cs, k), After(cs[..k]).blocks, After(cs[..k + 1]).blocks,
                doc, schema, cs[k].node);
  }

  lemma HistoryFits(doc: DocId, schema: set<string>, cs: seq<Commit>, k: nat)
    requires IsHistory(doc, cs) && Named(schema, doc, cs) && k <= |cs|
    ensures forall n :: n in Composites(cs)[..k] ==> Fits(After(cs[..k]).blocks, doc, schema, n)
  {
    HistoryIsChain(doc, cs);
    forall n | n in Composites(cs)[..k] ensures Fits(After(cs[..k]).blocks, doc, schema, n) {
      var i :| 0 <= i < k && cs[i].node == n;
      CommitFits(doc, schema, cs, i);
      BlocksGrow(BlocksOf(cs), Composites(cs), i + 1, k);
    }
  }

  // ---------- The fetcher ----------

  class VersionedFetcher {
    const global: set<Node>
    const doc: DocId
    const schema: set<string>
    const dag: DagStore
    const data: DataStore
    const heads: HeadStore
    var queued: seq<Node>

    constructor (global: set<Node>, doc: DocId, schema: set<string>)
      ensures this.global == global && this.doc == doc && this.schema == schema
      ensures fresh(dag) && fresh(data) && fresh(heads)
      ensures dag.blocks == {} && data.data == map[] && heads.heads == map[] && queued == []
    {
      this.global, this.doc, this.schema := global, doc, schema;
      dag := new DagStore();
      data := new DataStore();
      heads := new HeadStore();
      queued := [];
    }

    method SeekNext(c: Node, topParent: bool) returns (ok: bool)
      modifies this, dag
      ensures
        var s := Sought(global, Seek(old(dag.blocks), old(queued)), c, topParent);
        && ok == s.Some?
        && (ok ==> dag.blocks == s.value.local && queued == s.value.queue)
      decreases c
    {
      if c in dag.blocks {
        return true;
      }
      if c !in global {
        return false;
      }
      dag.blocks := dag.blocks + {c};
      if topParent {
        queued := [c] + queued;
      }
      FirstHeadIsLink(c.links);
      var head := FirstHead(c.links);
      if head.Some? {
        ok := SeekNext(head.value, true);
        if !ok {
          return;
        }
      }
      ghost var start := Seek(dag.blocks, queued);
      for i := 0 to |c.links|
        invariant SoughtLinks(global, Seek(dag.blocks, queued), c, i) == SoughtLinks(global, start, c, 0)
      {
        if c.links[i].name == HEAD {
          continue;
        }
        assert c.links[i] in c.links;
        ok := SeekNext(c.links[i].cid, false);
        if !ok {
          return;
        }
      }
      return true;
    }

    method ProcessNode(nd: Node, fieldName: Option<string>) returns (ok: bool)
      modifies data, heads
      ensures Mergeable(old(data.data), nd.delta)
              && (if fieldName == None then nd.delta.CompositeDelta? && nd.delta.doc == doc
                  else nd.delta.RegisterDelta? && nd.delta.key == FieldKey(doc, fieldName.value)) ==>
                ok && data.data == MergeDelta(old(data.data), nd.delta)
    {
      var crdt;
      if fieldName == None {
        var comp := new CompositeDAG(data, doc);
        crdt := Composite(comp);
      } else {
        var reg := new LWWRegister(data, FieldKey(doc, fieldName.value));
        crdt := Register(reg);
      }
      var ns := Namespace(doc.docKey, if fieldName == None then COMPOSITE_NAMESPACE else fieldName.value);
      var clock := new MerkleClock(heads, dag, data, ns, crdt);
      forall l | l in nd.links ensures l.cid != nd { LinkIsNotSelf(nd, l); }
      var r, children := clock.ProcessNode(nd, nd.delta.priority, nd.delta, nd);
      ok := r == Ok;
    }

    method Merge(c: Node) returns (ok: bool)
      modifies data, heads
      ensures Fits(dag.blocks, doc, schema, c) && WellTyped(old(data.data)) ==>
                ok && data.data == MergeAll(old(data.data), CommitDeltas(c))
    {
      ghost var good := Fits(dag.blocks, doc, schema, c) && WellTyped(data.data);
      ghost var s := data.data;
      if c !in dag.blocks {
        return false;
      }
      ok := ProcessNode(c, None);
      if !ok {
        return;
      }
      assert MergeAll(s, []) == s && [c.delta][..0] == [] && [c.delta] + SubDeltas([]) == [c.delta];
      for i := 0 to |c.links|
        modifies data, heads
        invariant good ==> data.data == PartlyMerged(s, c, i)
      {
        var l := c.links[i];
        if good {
          MergeOneMore(s, c, i);
        }
        if l.name == HEAD {
          continue;
        }
        if l.cid !in dag.blocks || l.name !in schema {
          return false;
        }
        ok := ProcessNode(l.cid, Some(l.name));
        if !ok {
          return;
        }
      }
      assert c.links[..|c.links|] == c.links;
      return true;
    }

    method SeekTo(c: Node) returns (ok: bool)
      modifies this, dag, data, heads
      ensures
        var s := Sought(global, Seek(old(dag.blocks), []), c, true);
        && (s.None? ==> !ok)
        && (s.Some? ==> dag.blocks == s.value.local && queued == s.value.queue)
        && (s.Some? && WellTyped(old(data.data))
            && (forall n :: n in s.value.queue ==> Fits(dag.blocks, doc, schema, n)) ==>
              ok && data.data == MergeAll(old(data.data), ReplayDeltas(s.value.queue)))
    {
      queued := [];
      ok := SeekNext(c, true);
      if !ok {
        return;
      }
      ok := MergeQueued();
    }

    /** Merges the queued commits, oldest first. */
    method MergeQueued() returns (ok: bool)
      modifies data, heads
      ensures AllFit() && WellTyped(old(data.data)) ==>
                ok && data.data == MergeAll(old(data.data), ReplayDeltas(queued))
    {
      ghost var s, good := data.data, WellTyped(data.data) && AllFit();
      for i := 0 to |queued|
        modifies data, heads
        invariant good ==> data.data == ReplayedTo(s, queued, i)
      {
        if good {
          assert Fits(dag.blocks, doc, schema, queued[i]);
          ReplayNext(s, queued, i);
        }
        ok := Merge(queued[i]);
        if !ok {
          return;
        }
      }
      assert queued[..|queued|] == queued;
      return true;
    }

    ghost predicate AllFit()
      reads this, dag
    {
      forall n :: n in queued ==> Fits(dag.blocks, doc, schema, n)
    }
  }

  /** The data once the first i queued commits are merged. */
  ghost function ReplayedTo(s: Data, queue: seq<Node>, i: nat): Data
    requires i <= |queue|
  {
    MergeAll(s, ReplayDeltas(queue[..i]))
  }

  lemma ReplayNext(s: Data, queue: seq<Node>, i: nat)
    requires i < |queue| && WellTyped(s)
    ensures WellTyped(ReplayedTo(s, queue, i))
    ensures ReplayedTo(s, queue, i + 1) == MergeAll(ReplayedTo(s, queue, i), CommitDeltas(queue[i]))
  {
    MergeAllWellTyped(s, ReplayDeltas(queue[..i]));
    assert queue[..i + 1][..i] == queue[..i];
    MergeAllConcat(s, ReplayDeltas(queue[..i]), CommitDeltas(queue[i]));
  }

  /** The data once a commit and the first i of its links have been merged. */
  ghost function PartlyMerged(s: Data, c: Node, i: nat): Data
    requires i <= |c.links|
  {
    MergeAll(s, [c.delta] + SubDeltas(c.links[..i]))
  }

  lemma {:induction false} MergeAllWellTyped(s: Data, ds: seq<Delta>)
    requires WellTyped(s)
    ensures WellTyped(MergeAll(s, ds))
  {
    if ds != [] {
      MergeAllWellTyped(s, ds[..|ds| - 1]);
      MergeKeepsWellTyped(MergeAll(s, ds[..|ds| - 1]), ds[|ds| - 1]);
    }
  }

  lemma MergeOneMore(s: Data, c: Node, i: nat)
    requires i < |c.links| && WellTyped(s)
    ensures
      var l := c.links[i];
      && Mergeable(PartlyMerged(s, c, i), l.cid.delta)
      && PartlyMerged(s, c, i + 1) == if l.name == HEAD then PartlyMerged(s, c, i)
                                      else MergeDelta(PartlyMerged(s, c, i), l.cid.delta)
  {
    var l, ds := c.links[i], [c.delta] + SubDeltas(c.links[..i]);
    MergeAllWellTyped(s, ds);
    assert c.links[..i + 1][..i] == c.links[..i];
    if l.name == HEAD {
      assert SubDeltas(c.links[..i + 1]) == SubDeltas(c.links[..i]);
    } else {
      assert [c.delta] + SubDeltas(c.links[..i + 1]) == ds + [l.cid.delta];
      assert (ds + [l.cid.delta])[..|ds|] == ds;
    }
  }

  /** Starting a fetcher at the k-th commit of a local history leaves the data of that moment in its store. */
  method Start(global: set<Node>, doc: DocId, schema: set<string>, c: Node, ghost cs: seq<Commit>, ghost k: nat)
    returns (ok: bool, vf: VersionedFetcher)
    ensures IsHistory(doc, cs) && Named(schema, doc, cs) && 0 < k <= |cs|
            && After(cs[..k]).blocks <= global && c == cs[k - 1].node ==>
              ok && vf.data.data == After(cs[..k]).data && vf.queued == Composites(cs)[..k]
  {
    vf := new VersionedFetcher(global, doc, schema);
    ok := vf.SeekTo(c);
    if IsHistory(doc, cs) && Named(schema, doc, cs) && 0 < k <= |cs|
       && After(cs[..k]).blocks <= global && c == cs[k - 1].node {
      TimeTravelIsExact(global, doc, cs, k);
      HistoryFits(doc, schema, cs, k);
    }
  }
}
