/**
 * How an AnchorCom peer receives: which arriving messages it takes in, how long each is worked on, and what it hands
 * over, as an observer of arrivals and answers reckons it.
 */
module AnchorComReceiving {
  import opened Bytes
  import opened AnchorComFormat
  import A = AnchorComAuthentic
  import R = AnchorComRx
  import X = AnchorComRxQueue
  import E = AnchorComEndToEnd

  datatype Arrival = Arrival(channel: nat, wire: bytes)

  /** Messages waiting, the answers given so far to the first of them, and what was received and handed over. */
  datatype View = View(
    waiting: seq<Arrival>, envs: seq<R.Env>, received: seq<bytes>, delivered: seq<bytes>, places: seq<nat>)

  /** Messages waiting that came over this channel. */
  function From(waiting: seq<Arrival>, channel: nat): nat {
    if waiting == [] then 0
    else From(waiting[..|waiting| - 1], channel) + if waiting[|waiting| - 1].channel == channel then 1 else 0
  }

  /** A message is taken in if its length is allowed, and fewer than two of its channel and fifteen in all are waiting. */
  predicate TakenIn(g: X.Config, n: nat, v: View, channel: nat, wire: bytes) {
    && channel < n && g.minLen <= 1 + |wire| && 1 + |wire| + 4 <= g.bufLen
    && From(v.waiting, channel) < 2 && |v.waiting| < 15
  }

  /** The first message is worked on until it is handed over or its errors reach the maximum. */
  function Follow(g: X.Config, n: nat, v: View, e: X.Event): View
    requires g.Valid()
  {
    match e
    case EIndicate(channel, wire) =>
      if TakenIn(g, n, v, channel, wire) then v.(waiting := v.waiting + [Arrival(channel, wire)], received := v.received + [wire]) else v
    case ECycle(env) =>
      if v.waiting == [] || |v.waiting[0].wire| < PREFIX_LEN + APPEND_LEN || |v.waiting| > |v.received| then v
      else
        var p := A.After(g.k, g.c, v.waiting[0].wire, v.envs + [env]);
        if p.handed.Some? then
          View(v.waiting[1..], [], v.received, v.delivered + [p.handed.value], v.places + [|v.received| - |v.waiting|])
        else if p.err >= g.c.maxRetry then v.(waiting := v.waiting[1..], envs := [])
        else v.(envs := v.envs + [env])
  }

  function Observe(g: X.Config, n: nat, events: seq<X.Event>): View
    requires g.Valid()
  {
    if events == [] then View([], [], [], [], [])
    else Follow(g, n, Observe(g, n, events[..|events| - 1]), events[|events| - 1])
  }

  // ----- The peer does exactly that -----------------------------------------------------------------------

  ghost predicate SameQueue(queue: seq<X.Slot>, waiting: seq<Arrival>, received: seq<bytes>, finished: nat) {
    && |queue| == |waiting| <= 15 && |received| == finished + |waiting|
    && forall i :: 0 <= i < |waiting| ==> queue[i].channel == waiting[i].channel && received[finished + i] == waiting[i].wire
  }

  ghost predicate Agrees(g: X.Config, n: nat, s: X.Peer, v: View) {
    && |s.main| == n && s.received == v.received && s.delivered == v.delivered && s.places == v.places
    && SameQueue(s.queue, v.waiting, s.received, s.finished) && A.HeadFollows(g, s, v.envs)
  }

  function Holds(queue: seq<X.Slot>, x: X.Slot): nat {
    if x in queue then 1 else 0
  }

  /** A channel has as many messages waiting as it has buffers in the queue. */
  lemma {:induction false} CountsBuffers(queue: seq<X.Slot>, waiting: seq<Arrival>, channel: nat)
    requires |queue| == |waiting| && X.Distinct(queue)
    requires forall i :: 0 <= i < |waiting| ==> queue[i].channel == waiting[i].channel
    ensures From(waiting, channel) == Holds(queue, X.Slot(channel, false)) + Holds(queue, X.Slot(channel, true))
  {
    if queue != [] {
      var m := |queue| - 1;
      CountsBuffers(queue[..m], waiting[..m], channel);
      assert queue == queue[..m] + [queue[m]];
      assert queue[m] !in queue[..m];
    }
  }

  /** A message is queued exactly when a buffer of its channel is free and the queue is not full. */
  lemma IndicateExactly(g: X.Config, s: X.Peer, channel: nat, wire: bytes)
    requires X.Inv(g, s) && |s.queue| <= 15
    ensures var s' := X.Indicate(g, s, channel, wire);
            && s'.finished == s.finished && s'.delivered == s.delivered && s'.places == s.places && |s'.main| == |s.main| &&
            if channel < |s.main| == |s.temp| && X.Fits(g, wire) && (!s.main[channel].needVerify || !s.temp[channel].needVerify) && |s.queue| < 15
            then s'.received == s.received + [wire] && |s'.queue| == |s.queue| + 1 && s'.queue[..|s.queue|] == s.queue
                 && s'.queue[|s.queue|].channel == channel
            else s'.queue == s.queue && s'.received == s.received
  {
    hide R.Enqueue, X.Waiting, X.InOrder;
    X.BuffersFit(g, s, channel, wire);
  }

  lemma FreeBuffers(g: X.Config, s: X.Peer, waiting: seq<Arrival>, channel: nat)
    requires X.Inv(g, s) && SameQueue(s.queue, waiting, s.received, s.finished) && channel < |s.main|
    ensures |s.main| == |s.temp|
    ensures From(waiting, channel) < 2 <==> !s.main[channel].needVerify || !s.temp[channel].needVerify
  {
    hide X.Waiting, X.InOrder;
    CountsBuffers(s.queue, waiting, channel);
    assert s.main[channel] == X.Owned(s.main, s.temp, X.Slot(channel, false));
    assert s.temp[channel] == X.Owned(s.main, s.temp, X.Slot(channel, true));
  }

  lemma IndicateAgrees(g: X.Config, n: nat, s: X.Peer, v: View, channel: nat, wire: bytes)
    requires X.Inv(g, s) && g.Valid() && Agrees(g, n, s, v)
    ensures Agrees(g, n, X.Indicate(g, s, channel, wire), Follow(g, n, v, X.EIndicate(channel, wire)))
  {
    hide X.Inv, X.Indicate, A.HeadFollows, From;
    A.IndicateStep(g, s, channel, wire, v.envs);
    if channel < n { FreeBuffers(g, s, v.waiting, channel); }
    IndicateExactly(g, s, channel, wire);
    var s' := X.Indicate(g, s, channel, wire);
    if s'.queue != s.queue {
      assert forall i :: 0 <= i < |s.queue| ==> s'.queue[..|s.queue|][i] == s'.queue[i];
    }
  }

  lemma CycleAgrees(g: X.Config, n: nat, s: X.Peer, v: View, env: R.Env)
    requires X.Inv(g, s) && g.Valid() && Agrees(g, n, s, v)
    ensures Agrees(g, n, X.Cycle(g, s, env), Follow(g, n, v, X.ECycle(env)))
  {
    hide X.Inv, X.Cycle, A.Follows, A.After;
    if s.queue == [] {
      E.NoHead(g, s, env);
    } else {
      A.CycleStep(g, s, env, v.envs);
      assert v.waiting[0].wire == s.received[s.finished];
      hide A.HeadFollows;
    }
  }

  lemma {:induction false} RunAgrees(g: X.Config, n: nat, events: seq<X.Event>)
    requires g.Valid()
    ensures Agrees(g, n, X.Run(g, n, events), Observe(g, n, events))
  {
    hide X.Inv, X.Indicate, X.Cycle, Agrees, Follow;
    if events == [] {
      StartsAgreeing(g, n);
    } else {
      var before := events[..|events| - 1];
      RunAgrees(g, n, before);
      var s, v := X.Run(g, n, before), Observe(g, n, before);
      match events[|events| - 1]
      case EIndicate(channel, wire) => IndicateAgrees(g, n, s, v, channel, wire);
      case ECycle(env) => CycleAgrees(g, n, s, v, env);
    }
  }

  lemma StartsAgreeing(g: X.Config, n: nat)
    requires g.Valid()
    ensures Agrees(g, n, X.Init(g, n), View([], [], [], [], []))
  {
  }

  /**
   * In every run the peer takes in exactly the messages of an allowed length of which fewer than two of the same channel
   * and fewer than fifteen in all are waiting; works on the first one until it is handed over or its errors reach the
   * maximum; and hands over exactly the authenticated contents, in order of reception.
   */
  lemma ReceivesExactly(g: X.Config, n: nat, events: seq<X.Event>)
    requires g.Valid()
    ensures var s, v := X.Run(g, n, events), Observe(g, n, events);
            && s.received == v.received && s.delivered == v.delivered && s.places == v.places
            && |s.queue| == |v.waiting| && s.finished + |v.waiting| == |v.received|
            && forall i :: 0 <= i < |v.waiting| ==> s.queue[i].channel == v.waiting[i].channel && v.received[s.finished + i] == v.waiting[i].wire
  {
    hide X.Inv, X.Run, Observe, A.HeadFollows;
    RunAgrees(g, n, events);
  }
}
