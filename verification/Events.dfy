/** The event channel (events/simple.go): one loop handles subscribe, unsubscribe, publish and close commands. */
module Events {

  /** A subscriber's channel. */
  type Chan = nat

  datatype Command<T> = Subscribe(ch: Chan) | Unsubscribe(ch: Chan) | Publish(item: T) | Close

  /** What happens to one channel: an item is sent to it, or it is closed. */
  datatype Action<T> = Sent(item: T) | Closed

  datatype Entry<T> = Entry(ch: Chan, action: Action<T>)

  /** The actions on one channel, in order. */
  function On<T>(trace: seq<Entry<T>>, ch: Chan): seq<Action<T>> {
    if trace == [] then []
    else On(trace[..|trace| - 1], ch) + (if trace[|trace| - 1].ch == ch then [trace[|trace| - 1].action] else [])
  }

  // ---------- What a channel should see ----------

  /** One channel's view of the commands: whether it is subscribed, what it saw, and whether the loop has ended. */
  datatype View<T> = View(on: bool, saw: seq<Action<T>>, over: bool)

  function Seen<T>(cmds: seq<Command<T>>, ch: Chan): View<T> {
    if cmds == [] then View(false, [], false)
    else
      var v := Seen(cmds[..|cmds| - 1], ch);
      if v.over then v
      else match cmds[|cmds| - 1]
        case Subscribe(c) => if c == ch then v.(on := true) else v
        case Unsubscribe(c) => if c == ch && v.on then View(false, v.saw + [Closed], false) else v
        case Publish(item) => if v.on then v.(saw := v.saw + [Sent(item)]) else v
        case Close => View(false, if v.on then v.saw + [Closed] else v.saw, true)
  }

  /** Every subscription makes its own channel. */
  ghost predicate FreshChannels<T>(cmds: seq<Command<T>>) {
    forall i, j :: 0 <= i < j < |cmds| && cmds[i].Subscribe? && cmds[j].Subscribe? ==> cmds[i].ch != cmds[j].ch
  }

  lemma {:induction false} OnMeansSubscribed<T>(cmds: seq<Command<T>>, ch: Chan)
    requires Seen(cmds, ch).on
    ensures exists i :: 0 <= i < |cmds| && cmds[i] == Subscribe(ch)
  {
    if Seen(cmds[..|cmds| - 1], ch).on {
      OnMeansSubscribed(cmds[..|cmds| - 1], ch);
    }
  }

  function Sends<T>(cmds: seq<Command<T>>): seq<Action<T>> {
    if cmds == [] then []
    else Sends(cmds[..|cmds| - 1])
         + (if cmds[|cmds| - 1].Publish? then [Sent(cmds[|cmds| - 1].item)] else [])
  }

  /** b is the first command after a that ends the subscription to `ch`, or the end of the commands. */
  ghost predicate EndsAt<T>(cmds: seq<Command<T>>, ch: Chan, a: nat, b: nat) {
    && a < b <= |cmds|
    && (forall i :: a < i < b ==> cmds[i] != Unsubscribe(ch) && cmds[i] != Close)
    && (b < |cmds| ==> cmds[b] == Unsubscribe(ch) || cmds[b] == Close)
  }

  lemma {:induction false} SeenUpTo<T>(cmds: seq<Command<T>>, ch: Chan, a: nat, b: nat, k: nat)
    requires FreshChannels(cmds) && EndsAt(cmds, ch, a, b) && cmds[a] == Subscribe(ch) && k <= |cmds|
    requires forall i :: 0 <= i < a ==> cmds[i] != Close
    ensures
      var v := Seen(cmds[..k], ch);
      if k <= a then v == View(false, [], false)
      else if k <= b then v == View(true, Sends(cmds[a + 1..k]), false)
      else !v.on && v.saw == Sends(cmds[a + 1..b]) + [Closed]
  {
    if k > 0 {
      SeenUpTo(cmds, ch, a, b, k - 1);
      assert cmds[..k][..k - 1] == cmds[..k - 1];
      if a + 1 < k <= b {
        assert cmds[a + 1..k][..k - a - 2] == cmds[a + 1..k - 1];
      }
    }
  }

  /** A subscriber sees exactly the items published between its subscription and its end, in order, then one close. */
  lemma DeliveryIsExact<T>(cmds: seq<Command<T>>, ch: Chan, a: nat, b: nat)
    requires FreshChannels(cmds) && EndsAt(cmds, ch, a, b) && cmds[a] == Subscribe(ch)
    requires forall i :: 0 <= i < a ==> cmds[i] != Close
    ensures Seen(cmds, ch).saw == Sends(cmds[a + 1..b]) + if b < |cmds| then [Closed] else []
  {
    SeenUpTo(cmds, ch, a, b, |cmds|);
    assert cmds[..|cmds|] == cmds;
  }

  /** A channel that is never subscribed, or only after the close, sees nothing. */
  lemma {:induction false} OthersSeeNothing<T>(cmds: seq<Command<T>>, ch: Chan)
    requires forall i :: 0 <= i < |cmds| && cmds[i] == Subscribe(ch) ==> exists j :: 0 <= j < i && cmds[j] == Close
    ensures Seen(cmds, ch).saw == [] && !Seen(cmds, ch).on
    ensures (exists j :: 0 <= j < |cmds| && cmds[j] == Close) ==> Seen(cmds, ch).over
  {
    if cmds != [] {
      OthersSeeNothing(cmds[..|cmds| - 1], ch);
    }
  }

  // ---------- The loop ----------

  ghost predicate NoDuplicates(s: seq<Chan>) {
    forall i, j :: 0 <= i < j < |s| ==> s[i] != s[j]
  }

  class SimpleChannel<T> {
    var subscribers: seq<Chan>
    var trace: seq<Entry<T>>

    constructor ()
      ensures subscribers == [] && trace == []
    {
      subscribers, trace := [], [];
    }

    /** Does the same to every subscriber, in turn. */
    method ToAll(action: Action<T>)
      requires NoDuplicates(subscribers)
      modifies this`trace
      ensures forall ch :: On(trace, ch) == On(old(trace), ch) + if ch in subscribers then [action] else []
    {
      ghost var was := trace;
      for i := 0 to |subscribers|
        invariant forall ch :: On(trace, ch) == On(was, ch) + if ch in subscribers[..i] then [action] else []
      {
        ghost var before := trace;
        trace := trace + [Entry(subscribers[i], action)];
        assert trace[..|before|] == before;
        assert subscribers[..i + 1] == subscribers[..i] + [subscribers[i]];
      }
      assert subscribers[..|subscribers|] == subscribers;
    }

    /** Removes a subscriber by moving the last one into its place, and closes its channel. */
    method Drop(ch: Chan)
      requires NoDuplicates(subscribers)
      modifies this
      ensures NoDuplicates(subscribers)
      ensures forall c :: c in subscribers <==> c in old(subscribers) && c != ch
      ensures forall c :: On(trace, c) == On(old(trace), c) + if c == ch && ch in old(subscribers) then [Closed] else []
    {
      var index := 0;
      while index < |subscribers| && subscribers[index] != ch
        invariant index <= |subscribers| && ch !in subscribers[..index]
      {
        index := index + 1;
      }
      if index == |subscribers| {
        assert subscribers[..index] == subscribers;
        return;
      }
      ghost var was := subscribers;
      var last := subscribers[|subscribers| - 1];
      subscribers := subscribers[index := last];
      subscribers := subscribers[..|subscribers| - 1];
      SwapRemoved(was, index);
      ghost var before := trace;
      trace := trace + [Entry(ch, Closed)];
      assert trace[..|before|] == before;
    }

    /** Handles commands until a close command; afterwards every channel has seen what it should. */
    method HandleChannel(cmds: seq<Command<T>>)
      requires subscribers == [] && trace == [] && FreshChannels(cmds)
      modifies this
      ensures forall ch :: On(trace, ch) == Seen(cmds, ch).saw
    {
      for i := 0 to |cmds|
        invariant NoDuplicates(subscribers)
        invariant forall ch :: ch in subscribers <==> Seen(cmds[..i], ch).on
        invariant forall ch :: On(trace, ch) == Seen(cmds[..i], ch).saw && !Seen(cmds[..i], ch).over
      {
        assert cmds[..i + 1][..i] == cmds[..i];
        match cmds[i]
        case Close =>
          ToAll(Closed);
          forall ch ensures On(trace, ch) == Seen(cmds, ch).saw {
            SeenAfterClose(cmds, ch, i);
          }
          return;
        case Subscribe(ch) =>
          if ch in subscribers {
            OnMeansSubscribed(cmds[..i], ch);
          }
          subscribers := subscribers + [ch];
        case Unsubscribe(ch) =>
          Drop(ch);
        case Publish(item) =>
          ToAll(Sent(item));
      }
      assert cmds[..|cmds|] == cmds;
    }
  }

  lemma SwapRemoved(s: seq<Chan>, index: nat)
    requires NoDuplicates(s) && index < |s|
    ensures
      var t := s[index := s[|s| - 1]][..|s| - 1];
      NoDuplicates(t) && forall c :: c in t <==> c in s && c != s[index]
  {
    var t := s[index := s[|s| - 1]][..|s| - 1];
    forall c | c in s && c != s[index] ensures c in t {
      var i :| 0 <= i < |s| && s[i] == c;
      assert t[if i == |s| - 1 then index else i] == c;
    }
  }

  lemma {:induction false} SeenAfterClose<T>(cmds: seq<Command<T>>, ch: Chan, i: nat)
    requires i < |cmds| && cmds[i] == Close
    ensures Seen(cmds, ch) == Seen(cmds[..i + 1], ch) && Seen(cmds, ch).over
  {
    if i + 1 == |cmds| {
      assert cmds[..i + 1] == cmds;
    } else {
      assert cmds[..|cmds| - 1][..i + 1] == cmds[..i + 1];
      SeenAfterClose(cmds[..|cmds| - 1], ch, i);
    }
  }
}
