/**
 The per-document queue of the push server (net/server.go): callers of `add` hold a document key or wait on its
 channel, `done` releases it. The callers interleave in any way; each step is one critical section.
 */
module DocQueue {
  import opened ByteOrder

  type DocKey = Bytes

  /** A channel; it is only ever closed. */
  type Chan = nat

  datatype Queue = Queue(docs: map<DocKey, Chan>, closed: set<Chan>, next: Chan)

  datatype Caller = Idle | Waiting(doc: DocKey, chan: Chan) | Holding(doc: DocKey)

  // ---------- The critical sections ----------

  class DocQueue {
    var q: Queue

    constructor ()
      ensures q == Queue(map[], {}, 0)
    {
      q := Queue(map[], {}, 0);
    }

    /** The locked part of `add`: the key is taken, or the channel to wait on is returned. */
    method Add(doc: DocKey) returns (caller: Caller)
      modifies this
      ensures (q, caller) == Added(old(q), doc)
    {
      if doc in q.docs {
        return Waiting(doc, q.docs[doc]);
      }
      q := q.(docs := q.docs[doc := q.next], next := q.next + 1);
      return Holding(doc);
    }

    method Done(doc: DocKey)
      modifies this
      ensures q == Released(old(q), doc)
    {
      if doc in q.docs {
        var done := q.docs[doc];
        q := q.(docs := q.docs - {doc}, closed := q.closed + {done});
      }
    }
  }

  function Added(q: Queue, doc: DocKey): (Queue, Caller) {
    if doc in q.docs then (q, Waiting(doc, q.docs[doc]))
    else (q.(docs := q.docs[doc := q.next], next := q.next + 1), Holding(doc))
  }

  function Released(q: Queue, doc: DocKey): Queue {
    if doc in q.docs then q.(docs := q.docs - {doc}, closed := q.closed + {q.docs[doc]}) else q
  }

  // ---------- Interleavings ----------

  datatype State = State(q: Queue, callers: seq<Caller>)

  datatype Step = Add(i: nat, doc: DocKey) | Wake(i: nat) | Done(i: nat)

  /** An idle caller adds, a caller whose channel is closed tries again, a holder is done. */
  predicate CanStep(s: State, step: Step) {
    && step.i < |s.callers|
    && match step
       case Add(i, _) => s.callers[i] == Idle
       case Wake(i) => s.callers[i].Waiting? && s.callers[i].chan in s.q.closed
       case Done(i) => s.callers[i].Holding?
  }

  function Next(s: State, step: Step): State
    requires CanStep(s, step)
  {
    match step
    case Add(i, doc) => var (q, c) := Added(s.q, doc); State(q, s.callers[i := c])
    case Wake(i) => var (q, c) := Added(s.q, s.callers[i].doc); State(q, s.callers[i := c])
    case Done(i) => State(Released(s.q, s.callers[i].doc), s.callers[i := Idle])
  }

  predicate IsRun(s: State, steps: seq<Step>)
    decreases |steps|
  {
    steps == [] || (CanStep(s, steps[0]) && IsRun(Next(s, steps[0]), steps[1..]))
  }

  function Run(s: State, steps: seq<Step>): State
    requires IsRun(s, steps)
    decreases |steps|
  {
    if steps == [] then s else Run(Next(s, steps[0]), steps[1..])
  }

  // ---------- The invariant ----------

  /** The keys in the map are the keys held, each by one caller. */
  ghost predicate Exclusive(s: State) {
    && (forall i, j :: 0 <= i < j < |s.callers| && s.callers[i].Holding? && s.callers[j].Holding? ==>
          s.callers[i].doc != s.callers[j].doc)
    && (forall i :: 0 <= i < |s.callers| && s.callers[i].Holding? ==> s.callers[i].doc in s.q.docs)
    && (forall doc :: doc in s.q.docs ==> exists i :: 0 <= i < |s.callers| && s.callers[i] == Holding(doc))
  }

  /** A waiter waits on the channel now in the map, or on one that is closed. */
  ghost predicate NobodyStranded(s: State) {
    forall i :: 0 <= i < |s.callers| && s.callers[i].Waiting? ==>
      var c := s.callers[i];
      c.chan in s.q.closed || (c.doc in s.q.docs && s.q.docs[c.doc] == c.chan)
  }

  /** The channels in the map are open, and belong to one key each. */
  ghost predicate ChannelsOpen(q: Queue) {
    && (forall c :: c in q.closed ==> c < q.next)
    && (forall doc :: doc in q.docs ==> q.docs[doc] < q.next && q.docs[doc] !in q.closed)
    && (forall d, e :: d in q.docs && e in q.docs && d != e ==> q.docs[d] != q.docs[e])
  }

  ghost predicate Inv(s: State) {
    Exclusive(s) && NobodyStranded(s) && ChannelsOpen(s.q)
  }

  lemma AddKeepsExclusive(s: State, i: nat, doc: DocKey)
    requires Exclusive(s) && i < |s.callers| && !s.callers[i].Holding?
    ensures Exclusive(State(Added(s.q, doc).0, s.callers[i := Added(s.q, doc).1]))
  {
    var s' := State(Added(s.q, doc).0, s.callers[i := Added(s.q, doc).1]);
    forall d | d in s'.q.docs ensures exists j :: 0 <= j < |s'.callers| && s'.callers[j] == Holding(d) {
      if d in s.q.docs {
        var j :| 0 <= j < |s.callers| && s.callers[j] == Holding(d);
        assert s'.callers[j] == Holding(d);
      } else {
        assert s'.callers[i] == Holding(d);
      }
    }
  }

  lemma AddKeepsInv(s: State, i: nat, doc: DocKey)
    requires Inv(s) && i < |s.callers| && !s.callers[i].Holding?
    ensures Inv(State(Added(s.q, doc).0, s.callers[i := Added(s.q, doc).1]))
  {
    var s' := State(Added(s.q, doc).0, s.callers[i := Added(s.q, doc).1]);
    AddKeepsExclusive(s, i, doc);
    assert ChannelsOpen(s'.q);
    forall j | 0 <= j < |s'.callers| && s'.callers[j].Waiting?
      ensures var c := s'.callers[j]; c.chan in s'.q.closed || (c.doc in s'.q.docs && s'.q.docs[c.doc] == c.chan)
    {
      assert j == i || s'.callers[j] == s.callers[j];
    }
  }

  lemma DoneKeepsInv(s: State, i: nat)
    requires Inv(s) && i < |s.callers| && s.callers[i].Holding?
    ensures Inv(State(Released(s.q, s.callers[i].doc), s.callers[i := Idle]))
  {
    var s' := State(Released(s.q, s.callers[i].doc), s.callers[i := Idle]);
    forall d | d in s'.q.docs ensures exists j :: 0 <= j < |s'.callers| && s'.callers[j] == Holding(d) {
      var j :| 0 <= j < |s.callers| && s.callers[j] == Holding(d);
      assert s'.callers[j] == Holding(d);
    }
  }

  lemma {:induction false} RunKeepsInv(s: State, steps: seq<Step>)
    requires Inv(s) && IsRun(s, steps)
    ensures Inv(Run(s, steps))
    decreases |steps|
  {
    if steps != [] {
      match steps[0] {
        case Add(i, doc) => AddKeepsInv(s, i, doc);
        case Wake(i) => AddKeepsInv(s, i, s.callers[i].doc);
        case Done(i) => DoneKeepsInv(s, i);
      }
      RunKeepsInv(Next(s, steps[0]), steps[1..]);
    }
  }

  ghost predicate IsStart(s: State) {
    s.q == Queue(map[], {}, 0) && forall i :: 0 <= i < |s.callers| ==> s.callers[i] == Idle
  }

  /**
   In every interleaving at most one caller holds a key, nobody is stranded, no channel is closed twice, and
   while anybody waits some caller can go on.
   */
  lemma ExclusionWithoutStranding(s: State, steps: seq<Step>)
    requires IsStart(s) && IsRun(s, steps)
    ensures
      var t := Run(s, steps);
      && Exclusive(t) && NobodyStranded(t)
      && (forall i: nat :: CanStep(t, Done(i)) ==>
            t.callers[i].doc in t.q.docs && t.q.docs[t.callers[i].doc] !in t.q.closed)
      && (forall i :: 0 <= i < |t.callers| && t.callers[i].Waiting? ==>
            CanStep(t, Wake(i)) || exists j: nat :: CanStep(t, Done(j)) && t.callers[j].doc == t.callers[i].doc)
  {
    RunKeepsInv(s, steps);
    var t := Run(s, steps);
    forall i | 0 <= i < |t.callers| && t.callers[i].Waiting?
      ensures CanStep(t, Wake(i)) || exists j: nat :: CanStep(t, Done(j)) && t.callers[j].doc == t.callers[i].doc
    {
      if !CanStep(t, Wake(i)) {
        var j :| 0 <= j < |t.callers| && t.callers[j] == Holding(t.callers[i].doc);
        assert CanStep(t, Done(j));
      }
    }
  }

  /** Once the holder is done, every caller that waited for that key can go on. */
  lemma DoneWakesAll(s: State, steps: seq<Step>, j: nat)
    requires IsStart(s) && IsRun(s, steps) && CanStep(Run(s, steps), Done(j))
    ensures
      var t := Run(s, steps);
      var t' := Next(t, Done(j));
      forall i :: 0 <= i < |t.callers| && t.callers[i].Waiting? && t.callers[i].doc == t.callers[j].doc ==>
        CanStep(t', Wake(i))
  {
    RunKeepsInv(s, steps);
  }
}
