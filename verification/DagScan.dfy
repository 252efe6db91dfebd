/**
 The commit scan (planner/commit.go): a worklist walk from the fetched heads along `_head` links, with a set of
 visited nodes, one commit per call.
 */
module DagScan {
  import opened Options
  import opened Clock

  datatype Scan = Exhausted | Commit(c: Node) | NotFound(c: Node)

  /** The targets of the `_head` links, in link order. */
  function HeadTargets(links: seq<Link>): seq<Node> {
    if links == [] then []
    else HeadTargets(links[..|links| - 1]) + (if links[|links| - 1].name == HEAD then [links[|links| - 1].cid] else [])
  }

  lemma {:induction false} HeadTargetsAre(links: seq<Link>)
    ensures forall c :: c in HeadTargets(links) <==> Link(HEAD, c) in links
  {
    if links != [] {
      HeadTargetsAre(links[..|links| - 1]);
      assert links == links[..|links| - 1] + [links[|links| - 1]];
    }
  }

  /** Everything reachable from a node by `_head` links. */
  ghost function Below(n: Node): set<Node> {
    {n} + set l, m | l in n.links && l.name == HEAD && m in Below(l.cid) :: m
  }

  ghost function Reachable(heads: seq<Node>): set<Node> {
    set h, m | h in heads && m in Below(h) :: m
  }

  lemma {:induction false} BelowStep(n: Node, m: Node, c: Node)
    requires m in Below(n) && Link(HEAD, c) in m.links
    ensures c in Below(n)
  {
    if m == n {
      assert Link(HEAD, c).cid == c && c in Below(c);
    } else {
      var l :| l in n.links && l.name == HEAD && m in Below(l.cid);
      BelowStep(l.cid, m, c);
    }
  }

  lemma {:induction false} BelowWithin(n: Node, s: set<Node>)
    requires n in s && forall m, c :: m in s && Link(HEAD, c) in m.links ==> c in s
    ensures Below(n) <= s
  {
    forall m | m in Below(n) ensures m in s {
      if m != n {
        var l :| l in n.links && l.name == HEAD && m in Below(l.cid);
        assert l == Link(HEAD, l.cid);
        BelowWithin(l.cid, s);
      }
    }
  }

  lemma ReachableStep(heads: seq<Node>, m: Node, c: Node)
    requires m in Reachable(heads) && Link(HEAD, c) in m.links
    ensures c in Reachable(heads)
  {
    var h :| h in heads && m in Below(h);
    BelowStep(h, m, c);
  }

  /** The `_head` targets of visited nodes are visited, taken or queued. */
  ghost predicate Expanded(visited: set<Node>, taken: set<Node>, queued: seq<Node>) {
    forall m, c :: m in visited && Link(HEAD, c) in m.links ==> c in visited || c in taken || c in queued
  }

  lemma ExpandedTake(visited: set<Node>, queued: seq<Node>)
    requires Expanded(visited, {}, queued) && queued != []
    ensures Expanded(visited, {queued[0]}, queued[1..])
  {
    assert queued == [queued[0]] + queued[1..];
  }

  lemma ExpandedVisit(visited: set<Node>, queued: seq<Node>, current: Node, targets: seq<Node>)
    requires Expanded(visited, {current}, queued)
    requires forall c :: Link(HEAD, c) in current.links ==> c in targets
    ensures Expanded(visited + {current}, {}, targets + queued)
  {
  }

  class DagScanNode {
    const heads: seq<Node>
    const blocks: set<Node>
    const depth: Option<nat>
    const cid: Option<Node>
    var fetched: nat
    var queued: seq<Node>
    var visited: set<Node>
    var depthVisited: nat

    constructor (heads: seq<Node>, blocks: set<Node>, depth: Option<nat>, cid: Option<Node>)
      ensures this.heads == heads && this.blocks == blocks && this.depth == depth && this.cid == cid
      ensures Valid() && visited == {}
    {
      this.heads, this.blocks, this.depth, this.cid := heads, blocks, depth, cid;
      fetched, queued, visited, depthVisited := 0, [], {}, 0;
    }

    /** Every node met is visited or queued, except the one just taken off. */
    ghost predicate ValidBut(taken: set<Node>)
      reads this
    {
      && fetched <= |heads| && visited <= Reachable(heads) && taken <= Reachable(heads)
      && (forall c :: c in queued ==> c in Reachable(heads))
      && (depth == None ==>
            (forall i :: 0 <= i < fetched ==> heads[i] in visited + taken) && Expanded(visited, taken, queued))
    }

    ghost predicate Valid()
      reads this
    {
      ValidBut({})
    }

    predicate Matches(c: Node) { cid == None || cid.value == c }

    /** The next node to look at: from the queue, or else the next head. */
    function Peek(): Option<Node>
      requires fetched <= |heads|
      reads this
    {
      if |queued| > 0 then Some(queued[0]) else if fetched == |heads| then None else Some(heads[fetched])
    }

    /** Whether the targets of a node are queued when it is the n-th one that its head has led to. */
    predicate Descends(n: nat) { depth == None || n < depth.value }

    /** Takes the next node; a head starts counting the depth again. */
    method Take() returns (current: Option<Node>)
      requires Valid()
      modifies this
      ensures visited == old(visited) && current == old(Peek())
      ensures if old(queued) != [] then queued == old(queued)[1..] && fetched == old(fetched) else queued == []
      ensures old(queued) == [] && current.Some? ==> fetched == old(fetched) + 1
      ensures depthVisited == if old(queued) == [] && current.Some? then 0 else old(depthVisited)
      ensures current == None ==> Valid() && queued == [] && fetched == |heads| && queued == old(queued)
      ensures current.Some? ==> ValidBut({current.value})
      ensures current.Some? ==> |queued| + |heads| - fetched < |old(queued)| + |heads| - old(fetched)
    {
      if |queued| > 0 {
        current := Some(queued[0]);
        if depth == None {
          ExpandedTake(visited, queued);
        }
        queued := queued[1..];
      } else if fetched == |heads| {
        current := None;
      } else {
        var h := heads[fetched];
        assert h in heads && h in Below(h);
        current := Some(h);
        fetched := fetched + 1;
        depthVisited := 0;
      }
    }

    /** Visiting a node queues its `_head` targets, unless the depth limit is reached. */
    method Visit(current: Node)
      requires ValidBut({current})
      modifies this
      ensures Valid() && visited == old(visited) + {current} && fetched == old(fetched)
      ensures depthVisited == old(depthVisited) + 1
      ensures queued == (if Descends(depthVisited) then Reversed(HeadTargets(current.links)) else []) + old(queued)
    {
      var targets := HeadTargets(current.links);
      HeadTargetsAre(current.links);
      ReversedSame(targets);
      depthVisited := depthVisited + 1;
      visited := visited + {current};
      if depth == None {
        ExpandedVisit(old(visited), queued, current, Reversed(targets));
      }
      if Descends(depthVisited) {
        forall c | c in targets ensures c in Reachable(heads) { ReachableStep(heads, current, c); }
        queued := Reversed(targets) + queued;
      }
    }

    /** The next commit that was not yielded before; the ones passed over do not match the requested CID. */
    method Next() returns (r: Scan)
      requires Valid()
      modifies this
      ensures r.NotFound? ==> r.c in Reachable(heads) && r.c !in blocks
      ensures !r.NotFound? ==> Valid() && old(visited) <= visited
      ensures r.Commit? ==> r.c !in old(visited) && r.c in visited && Matches(r.c)
      ensures !r.NotFound? ==> forall c :: c in visited - old(visited) && Matches(c) ==> r.Commit? && c == r.c
      ensures r.Exhausted? && depth == None ==> visited == Reachable(heads)
      ensures old(Peek()).Some? && old(Peek()).value in blocks - old(visited) && Matches(old(Peek()).value) ==>
                var c, first := old(Peek()).value, old(queued) == [];
                && r == Commit(c) && visited == old(visited) + {c}
                && depthVisited == (if first then 0 else old(depthVisited)) + 1
                && fetched == old(fetched) + (if first then 1 else 0)
                && queued == (if Descends(depthVisited) then Reversed(HeadTargets(c.links)) else [])
                             + if first then [] else old(queued)[1..]
      decreases Reachable(heads) - visited, |queued| + |heads| - fetched
    {
      var taken := Take();
      if taken == None {
        if depth == None {
          AllVisited();
        }
        return Exhausted;
      }
      var current := taken.value;
      if current in visited {
        r := Next();
        return;
      }
      if current !in blocks {
        return NotFound(current);
      }
      Visit(current);
      if !Matches(current) {
        r := Next();
        return;
      }
      return Commit(current);
    }

    lemma AllVisited()
      requires Valid() && depth == None && queued == [] && fetched == |heads|
      ensures visited == Reachable(heads)
    {
      forall h | h in heads ensures Below(h) <= visited {
        BelowWithin(h, visited);
      }
    }
  }

  /** New CIDs are queued in reverse, so that the last one is at the front. */
  function Reversed(s: seq<Node>): seq<Node> {
    if s == [] then [] else [s[|s| - 1]] + Reversed(s[..|s| - 1])
  }

  lemma {:induction false} ReversedSame(s: seq<Node>)
    ensures forall c :: c in Reversed(s) <==> c in s
  {
    if s != [] {
      ReversedSame(s[..|s| - 1]);
      assert s == s[..|s| - 1] + [s[|s| - 1]];
    }
  }

  /** Calling `Next` until it stops yields every reachable commit exactly once. */
  method ScanAll(heads: seq<Node>, blocks: set<Node>, cid: Option<Node>) returns (out: seq<Node>)
    requires Reachable(heads) <= blocks
    ensures forall i, j :: 0 <= i < j < |out| ==> out[i] != out[j]
    ensures forall c :: c in out <==> c in Reachable(heads) && (cid == None || cid.value == c)
  {
    var node := new DagScanNode(heads, blocks, None, cid);
    out := [];
    while true
      invariant node.Valid() && node.heads == heads && node.blocks == blocks && node.depth == None && node.cid == cid
      invariant forall c :: c in out <==> c in node.visited && node.Matches(c)
      invariant forall i, j :: 0 <= i < j < |out| ==> out[i] != out[j]
      decreases Reachable(heads) - node.visited
    {
      ghost var before := node.visited;
      var r := node.Next();
      assert forall c :: c in node.visited ==> c in before || c in node.visited - before;
      match r
      case Exhausted => return;
      case NotFound(_) => assert false;
      case Commit(c) => out := out + [c];
    }
  }

  // ---------- The depth limit on a chain ----------

  ghost predicate LeadsOn(ns: seq<Node>, i: nat)
    requires i < |ns|
  {
    HeadTargets(ns[i].links) == if i + 1 < |ns| then [ns[i + 1]] else []
  }

  /** Every node has at most one `_head` link, and leads on to the next. */
  ghost predicate IsChain(ns: seq<Node>) {
    ns != [] && forall i: nat {:trigger LeadsOn(ns, i)} :: i < |ns| ==> LeadsOn(ns, i)
  }

  lemma NextIsSmaller(n: Node, c: Node)
    requires Link(HEAD, c) in n.links
    ensures c < n
  {
    var i :| 0 <= i < |n.links| && n.links[i] == Link(HEAD, c);
    assert n.links[i].cid == c;
  }

  /** Along a chain nodes get smaller, so none comes twice. */
  lemma {:induction false} ChainGetsSmaller(ns: seq<Node>, i: nat, j: nat)
    requires IsChain(ns) && i < j < |ns|
    ensures ns[j] < ns[i]
  {
    assert LeadsOn(ns, j - 1);
    HeadTargetsAre(ns[j - 1].links);
    assert ns[j] in HeadTargets(ns[j - 1].links);
    NextIsSmaller(ns[j - 1], ns[j]);
    if i + 1 < j {
      ChainGetsSmaller(ns, i, j - 1);
    }
  }

  /** How many nodes of a chain of n the limit lets through: always one. */
  function Limited(depth: Option<nat>, n: nat): nat {
    if depth == None || n <= depth.value then n else if depth.value == 0 then 1 else depth.value
  }

  ghost function SetOf(ns: seq<Node>): set<Node> { set c | c in ns }

  /** The scan stands k nodes below the head at index f, after having visited `was` before that head. */
  ghost predicate AtNode(node: DagScanNode, f: nat, was: set<Node>, chain: seq<Node>, k: nat)
    reads node
  {
    && chain != [] && node.Valid() && node.cid == None && k <= Limited(node.depth, |chain|) <= |chain|
    && node.visited == was + SetOf(chain[..k])
    && (if k == 0 then f < |node.heads| && chain[0] == node.heads[f] && node.fetched == f && node.queued == []
        else node.depthVisited == k && node.fetched == f + 1
             && node.queued == if k < Limited(node.depth, |chain|) then [chain[k]] else [])
  }

  lemma ChainNodeIsNew(was: set<Node>, chain: seq<Node>, k: nat)
    requires IsChain(chain) && k < |chain| && forall c :: c in chain ==> c !in was
    ensures chain[k] !in was + SetOf(chain[..k])
    ensures SetOf(chain[..k + 1]) == SetOf(chain[..k]) + {chain[k]}
  {
    forall i | 0 <= i < k ensures chain[i] != chain[k] { ChainGetsSmaller(chain, i, k); }
    assert chain[..k + 1] == chain[..k] + [chain[k]];
  }

  lemma TargetsOnChain(chain: seq<Node>, k: nat)
    requires IsChain(chain) && k < |chain|
    ensures Reversed(HeadTargets(chain[k].links)) == if k + 1 < |chain| then [chain[k + 1]] else []
  {
    assert LeadsOn(chain, k);
  }

  method NextOnChain(node: DagScanNode, ghost f: nat, ghost was: set<Node>, ghost chain: seq<Node>, ghost k: nat)
    returns (r: Scan)
    requires IsChain(chain) && AtNode(node, f, was, chain, k) && k < Limited(node.depth, |chain|)
    requires forall c :: c in chain ==> c in node.blocks && c !in was
    modifies node
    ensures r == Commit(chain[k]) && AtNode(node, f, was, chain, k + 1)
  {
    ChainNodeIsNew(was, chain, k);
    TargetsOnChain(chain, k);
    assert node.Peek() == Some(chain[k]) && chain[k] in chain;
    r := node.Next();
  }

  /** A head that leads to a chain of new nodes yields the nodes of the chain in order, up to the limit. */
  method ScanChain(node: DagScanNode, chain: seq<Node>) returns (out: seq<Node>)
    requires node.Valid() && node.cid == None && node.queued == []
    requires node.fetched < |node.heads| && IsChain(chain) && chain[0] == node.heads[node.fetched]
    requires forall c :: c in chain ==> c in node.blocks && c !in node.visited
    modifies node
    ensures out == chain[..Limited(node.depth, |chain|)]
    ensures node.Valid() && node.queued == [] && node.fetched == old(node.fetched) + 1
    ensures node.visited == old(node.visited) + SetOf(out)
  {
    out := [];
    var n := Limited(node.depth, |chain|);
    while |out| < n
      invariant |out| <= n && out == chain[..|out|]
      invariant AtNode(node, old(node.fetched), old(node.visited), chain, |out|)
    {
      var r := NextOnChain(node, old(node.fetched), old(node.visited), chain, |out|);
      out := out + [r.c];
    }
  }
}
