/**
 * AnchorCom from sender to receiver: the Tx queue of one peer, its pipeline, a transport that may lose messages but
 * keeps their order, the Rx queue and its pipeline. Whatever fails on the way, the application is handed accepted
 * payloads in acceptance order, at most one per transmission.
 */
module AnchorComEndToEnd {
  import opened Bytes
  import opened AnchorComFormat
  import T = AnchorComTx
  import R = AnchorComRx
  import X = AnchorComRxQueue

  /** A payload accepted for transmission, with its row of the message table and the flag byte found in its buffer. */
  datatype Message = Message(t: T.Config, payload: bytes, flag: byte)

  /** A Tx queue entry: which message it is, its pipeline state, and whether the transmission running was carried. */
  datatype Item = Item(pos: nat, s: T.State, carried: bool)

  /** A transmission: the bytes that the sender handed over, and as history which message they are and how it was sealed. */
  datatype Copy = Copy(pos: nat, m: R.Sealed, wire: bytes)

  /**
   * Accepted messages, Tx queue, all transmissions so far, how many of them left the bus, the receiving peer, and which
   * transmission each message received there was. retried records that a transmission was repeated.
   */
  datatype Sys = Sys(
    accepted: seq<Message>, queue: seq<Item>, sent: seq<Copy>, taken: nat, rx: X.Peer, arrived: seq<nat>, retried: bool)

  function Init(g: X.Config, n: nat): Sys {
    Sys([], [], [], 0, X.Init(g, n), [], false)
  }

  datatype Event =
    | EAccept(t: T.Config, buf: bytes, p1: bytes, p2: bytes)
    | ETxCycle(txEnv: T.Env)
    | EConfirm(result: Result)
    | ERemove
    | ECarry
    | EArrive(channel: nat)
    | ELose
    | ERxCycle(rxEnv: R.Env)

  function Wire(k: Crypto, t: T.Config, m: R.Sealed): bytes {
    T.Wire(k, t, m.p, m.flag, m.freshness, m.trunc)
  }

  // ----- Steps ------------------------------------------------------------------------------------------

  function Accept(y: Sys, t: T.Config, buf: bytes, p1: bytes, p2: bytes): Sys
    requires T.Room(buf, |p1| + |p2|)
  {
    y.(accepted := y.accepted + [Message(t, p1 + p2, buf[2])],
       queue := y.queue + [Item(|y.accepted|, T.Enqueue(buf, p1, p2), false)])
  }

  /** Only the head of the Tx queue is worked on. */
  function WithHead(y: Sys, h: Item): Sys
    requires y.queue != []
  {
    y.(queue := y.queue[0 := h])
  }

  /** The transport layer carries the running transmission across, once: it takes the bytes in the sender's buffer. */
  function Carry(y: Sys): Sys
    requires y.queue != [] && y.queue[0].pos < |y.accepted| && T.Sized(y.queue[0].s)
    requires y.queue[0].s.inProgress ==> y.queue[0].s.q == T.TransRunning
  {
    var h := y.queue[0];
    if h.s.inProgress && !h.carried then WithHead(y, h.(carried := true)).(sent := y.sent + [CopyOf(y.accepted[h.pos], h)]) else y
  }

  /** What the transport layer reads from the entry at the head. */
  function CopyOf(msg: Message, h: Item): Copy
    requires CHANID_LEN + h.s.len <= |h.s.buf|
  {
    Copy(h.pos, R.Sealed(msg.payload, msg.flag, h.s.freshness, h.s.trunc), T.OnWire(h.s))
  }

  /** The oldest transmission on the bus reaches the receiver, on some channel of this peer. */
  function Arrive(g: X.Config, y: Sys, channel: nat): Sys
    requires Inv(g, y) && y.taken < |y.sent|
  {
    var rx := X.Indicate(g, y.rx, channel, y.sent[y.taken].wire);
    y.(rx := rx, taken := y.taken + 1,
       arrived := if |rx.received| > |y.rx.received| then y.arrived + [y.taken] else y.arrived)
  }

  /** Freshness management finds the sender's value for the message at the head, whenever it answers. */
  ghost predicate InSync(y: Sys, env: R.Env) {
    y.rx.queue != [] && y.rx.finished < |y.arrived| && y.arrived[y.rx.finished] < |y.sent| ==>
      R.InSync(y.sent[y.arrived[y.rx.finished]].m, env)
  }

  ghost function Step(g: X.Config, y: Sys, e: Event): Sys
    requires Inv(g, y)
  {
    match e
    case EAccept(t, buf, p1, p2) => if T.Room(buf, |p1| + |p2|) && R.Agree(t, g.c) then Accept(y, t, buf, p1, p2) else y
    case ETxCycle(env) =>
      if y.queue == [] then y
      else
        var h := y.queue[0];
        WithHead(y, h.(s := T.Cycle(g.k, y.accepted[h.pos].t, h.s, env)))
    case EConfirm(result) =>
      if y.queue == [] then y
      else
        var h := y.queue[0];
        var again := h.s.inProgress && result == NotOk;
        WithHead(y, h.(s := T.Confirm(h.s, result), carried := h.carried && !again)).(retried := y.retried || again)
    case ERemove => if y.queue != [] && (y.queue[0].s.q == T.TransDone || y.queue[0].s.dropped) then y.(queue := y.queue[1..]) else y
    case ECarry => if y.queue == [] then y else Carry(y)
    case EArrive(channel) => if y.taken < |y.sent| then Arrive(g, y, channel) else y
    case ELose => if y.taken < |y.sent| then y.(taken := y.taken + 1) else y
    case ERxCycle(env) => if InSync(y, env) then y.(rx := X.Cycle(g, y.rx, env)) else y
  }

  // ----- Invariant --------------------------------------------------------------------------------------

  ghost predicate ItemOk(g: X.Config, accepted: seq<Message>, h: Item) {
    && h.pos < |accepted| && R.Agree(accepted[h.pos].t, g.c)
    && T.Inv(g.k, accepted[h.pos].t, accepted[h.pos].payload, accepted[h.pos].flag, h.s)
  }

  /** Entries are in order of acceptance, and those behind the head have not been worked on. */
  ghost predicate QueueOk(g: X.Config, accepted: seq<Message>, queue: seq<Item>) {
    && (forall i :: 0 <= i < |queue| ==> ItemOk(g, accepted, queue[i]))
    && (forall i :: 0 < i < |queue| ==> queue[i].s.q == T.Queued)
    && (forall i, j :: 0 <= i < j < |queue| ==> queue[i].pos < queue[j].pos)
  }

  ghost predicate CopyOk(g: X.Config, accepted: seq<Message>, x: Copy) {
    && x.pos < |accepted| && R.Agree(accepted[x.pos].t, g.c)
    && x.m.p == accepted[x.pos].payload && x.m.flag == accepted[x.pos].flag && x.wire == Wire(g.k, accepted[x.pos].t, x.m)
  }

  /** Transmissions follow the order of acceptance; only a retry repeats one. */
  ghost predicate SentOk(g: X.Config, accepted: seq<Message>, queue: seq<Item>, sent: seq<Copy>, retried: bool) {
    && (forall i :: 0 <= i < |sent| ==> CopyOk(g, accepted, sent[i]))
    && (forall i, j :: 0 <= i < j < |sent| ==> sent[i].pos <= sent[j].pos && (retried || sent[i].pos < sent[j].pos))
    && (forall i, j :: 0 <= i < |sent| && 0 <= j < |queue| ==>
          sent[i].pos <= queue[j].pos && (sent[i].pos < queue[j].pos || retried || queue[j].carried))
  }

  /** What the receiver got are transmissions, in their order. */
  ghost predicate ArrivedOk(k: Crypto, accepted: seq<Message>, sent: seq<Copy>, taken: nat, arrived: seq<nat>, received: seq<bytes>) {
    && taken <= |sent| && |arrived| == |received|
    && (forall i :: 0 <= i < |arrived| ==> arrived[i] < taken)
    && (forall i, j :: 0 <= i < j < |arrived| ==> arrived[i] < arrived[j])
    && (forall i :: 0 <= i < |arrived| ==>
          sent[arrived[i]].pos < |accepted| && received[i] == Wire(k, accepted[sent[arrived[i]].pos].t, sent[arrived[i]].m))
  }

  /** The pipeline entry means the transmission it came from. */
  ghost predicate EntryOk(g: X.Config, accepted: seq<Message>, x: Copy, e: R.State) {
    x.pos < |accepted| && R.Inv(g.k, accepted[x.pos].t, g.c, x.m, e)
  }

  ghost predicate PipelineOk(g: X.Config, accepted: seq<Message>, sent: seq<Copy>, arrived: seq<nat>, rx: X.Peer) {
    && |rx.main| == |rx.temp| && |arrived| == rx.finished + |rx.queue|
    && (forall i :: 0 <= i < |arrived| ==> arrived[i] < |sent|)
    && (forall i :: 0 <= i < |rx.queue| ==>
          rx.queue[i].channel < |rx.main|
          && EntryOk(g, accepted, sent[arrived[rx.finished + i]], X.Owned(rx.main, rx.temp, rx.queue[i]).entry))
    && |rx.places| == |rx.delivered|
    && (forall d :: 0 <= d < |rx.places| ==>
          rx.places[d] < |arrived| && rx.delivered[d] == sent[arrived[rx.places[d]]].m.p)
  }

  ghost predicate Inv(g: X.Config, y: Sys) {
    && X.Inv(g, y.rx) && QueueOk(g, y.accepted, y.queue) && SentOk(g, y.accepted, y.queue, y.sent, y.retried)
    && ArrivedOk(g.k, y.accepted, y.sent, y.taken, y.arrived, y.rx.received)
    && PipelineOk(g, y.accepted, y.sent, y.arrived, y.rx)
  }

  // ----- The sender -------------------------------------------------------------------------------------

  /** What is known about earlier messages stays true when one more is accepted. */
  lemma AcceptedGrows(g: X.Config, accepted: seq<Message>, m: Message)
    ensures forall h :: ItemOk(g, accepted, h) ==> ItemOk(g, accepted + [m], h)
    ensures forall x :: CopyOk(g, accepted, x) ==> CopyOk(g, accepted + [m], x)
    ensures forall x, e :: EntryOk(g, accepted, x, e) ==> EntryOk(g, accepted + [m], x, e)
  {
    hide T.Inv, R.Inv, R.Agree, Wire;
    assert forall i :: 0 <= i < |accepted| ==> (accepted + [m])[i] == accepted[i];
  }

  lemma BusKnows(g: X.Config, y: Sys, m: Message)
    requires ArrivedOk(g.k, y.accepted, y.sent, y.taken, y.arrived, y.rx.received)
    requires PipelineOk(g, y.accepted, y.sent, y.arrived, y.rx)
    ensures ArrivedOk(g.k, y.accepted + [m], y.sent, y.taken, y.arrived, y.rx.received)
    ensures PipelineOk(g, y.accepted + [m], y.sent, y.arrived, y.rx)
  {
    hide EntryOk, Wire, X.Owned;
    AcceptedGrows(g, y.accepted, m);
  }

  lemma QueueGrows(g: X.Config, accepted: seq<Message>, queue: seq<Item>, sent: seq<Copy>, retried: bool, m: Message, h: Item)
    requires QueueOk(g, accepted, queue) && SentOk(g, accepted, queue, sent, retried)
    requires h.pos == |accepted| && h.s.q == T.Queued && ItemOk(g, accepted + [m], h)
    ensures QueueOk(g, accepted + [m], queue + [h]) && SentOk(g, accepted + [m], queue + [h], sent, retried)
  {
    AcceptedGrows(g, accepted, m);
    Earlier(g, accepted, queue, sent);
    hide ItemOk, CopyOk;
    assert forall i :: 0 <= i < |queue| ==> (queue + [h])[i] == queue[i];
  }

  lemma Earlier(g: X.Config, accepted: seq<Message>, queue: seq<Item>, sent: seq<Copy>)
    ensures (forall i :: 0 <= i < |queue| ==> ItemOk(g, accepted, queue[i])) ==> forall i :: 0 <= i < |queue| ==> queue[i].pos < |accepted|
    ensures (forall i :: 0 <= i < |sent| ==> CopyOk(g, accepted, sent[i])) ==> forall i :: 0 <= i < |sent| ==> sent[i].pos < |accepted|
  {
    hide T.Inv, R.Agree, Wire;
  }

  lemma AcceptKeeps(g: X.Config, y: Sys, t: T.Config, buf: bytes, p1: bytes, p2: bytes)
    requires Inv(g, y) && T.Room(buf, |p1| + |p2|) && R.Agree(t, g.c)
    ensures Inv(g, Accept(y, t, buf, p1, p2))
  {
    hide QueueOk, SentOk, ArrivedOk, PipelineOk, X.Inv, T.Inv, R.Agree, T.Enqueue;
    ValidCrypto(g, y);
    T.EnqueueInv(g.k, t, buf, p1, p2);
    T.StartsQueued(buf, p1, p2);
    var m, h := Message(t, p1 + p2, buf[2]), Item(|y.accepted|, T.Enqueue(buf, p1, p2), false);
    QueueGrows(g, y.accepted, y.queue, y.sent, y.retried, m, h);
    BusKnows(g, y, m);
  }

  lemma ValidCrypto(g: X.Config, y: Sys)
    requires Inv(g, y)
    ensures g.k.Valid() && g.Valid()
  {
  }

  /** A new head state for the same message, no less carried unless a retry is on record. */
  lemma HeadKeeps(g: X.Config, y: Sys, h: Item, retried: bool)
    requires Inv(g, y) && y.queue != [] && h.pos == y.queue[0].pos && ItemOk(g, y.accepted, h)
    requires (y.retried ==> retried) && (retried || (y.queue[0].carried ==> h.carried))
    ensures Inv(g, WithHead(y, h).(retried := retried))
  {
    hide ItemOk, CopyOk, X.Inv, ArrivedOk, PipelineOk;
  }

  lemma TxCycleKeeps(g: X.Config, y: Sys, env: T.Env)
    requires Inv(g, y)
    ensures Inv(g, Step(g, y, ETxCycle(env)))
  {
    hide T.Inv, X.Inv, SentOk, ArrivedOk, PipelineOk, R.Agree, T.Cycle;
    ValidCrypto(g, y);
    if y.queue != [] {
      var h := y.queue[0];
      var msg := y.accepted[h.pos];
      T.CycleKeeps(g.k, msg.t, msg.payload, msg.flag, h.s, env);
      HeadKeeps(g, y, h.(s := T.Cycle(g.k, msg.t, h.s, env)), y.retried);
    }
  }

  lemma ConfirmKeeps(g: X.Config, y: Sys, result: Result)
    requires Inv(g, y)
    ensures Inv(g, Step(g, y, EConfirm(result)))
  {
    hide T.Inv, X.Inv, SentOk, ArrivedOk, PipelineOk, R.Agree, T.Confirm;
    if y.queue != [] {
      var h := y.queue[0];
      var msg := y.accepted[h.pos];
      T.ConfirmKeeps(g.k, msg.t, msg.payload, msg.flag, h.s, result);
      var again := h.s.inProgress && result == NotOk;
      HeadKeeps(g, y, h.(s := T.Confirm(h.s, result), carried := h.carried && !again), y.retried || again);
    }
  }

  lemma RemoveKeeps(g: X.Config, y: Sys)
    requires Inv(g, y)
    ensures Inv(g, Step(g, y, ERemove))
  {
    hide ItemOk, CopyOk, X.Inv, ArrivedOk, PipelineOk;
  }

  /** The bus only grows at its end, so what arrived before is as it was. */
  lemma BusGrows(g: X.Config, accepted: seq<Message>, sent: seq<Copy>, taken: nat, arrived: seq<nat>, rx: X.Peer, x: Copy)
    requires ArrivedOk(g.k, accepted, sent, taken, arrived, rx.received) && PipelineOk(g, accepted, sent, arrived, rx)
    ensures ArrivedOk(g.k, accepted, sent + [x], taken, arrived, rx.received)
    ensures PipelineOk(g, accepted, sent + [x], arrived, rx)
  {
    hide EntryOk, Wire, X.Owned;
    assert forall i :: 0 <= i < |sent| ==> (sent + [x])[i] == sent[i];
  }

  lemma CarryKeeps(g: X.Config, y: Sys)
    requires Inv(g, y) && y.queue != []
    ensures Inv(g, Step(g, y, ECarry))
  {
    hide T.Inv, R.Agree, X.Inv, ArrivedOk, PipelineOk, Wire;
    var h := y.queue[0];
    assert ItemOk(g, y.accepted, h);
    HeadOnWire(g, y.accepted, h);
    if h.s.inProgress && !h.carried {
      BusGrows(g, y.accepted, y.sent, y.taken, y.arrived, y.rx, CopyOf(y.accepted[h.pos], h));
    }
  }

  /** The bytes in the buffer of a running transmission are the sealed message. */
  lemma HeadOnWire(g: X.Config, accepted: seq<Message>, h: Item)
    requires ItemOk(g, accepted, h)
    ensures T.Sized(h.s) && (h.s.inProgress ==> h.s.q == T.TransRunning)
    ensures h.s.inProgress ==>
              CHANID_LEN + h.s.len <= |h.s.buf| && CopyOk(g, accepted, CopyOf(accepted[h.pos], h))
  {
    hide R.Agree;
  }

  // ----- The receiver -----------------------------------------------------------------------------------

  /** What an indication does to the peer: nothing, or one more intact entry at the end of the queue. */
  lemma IndicateEffect(g: X.Config, rx: X.Peer, channel: nat, wire: bytes)
    requires X.Inv(g, rx)
    ensures var rx' := X.Indicate(g, rx, channel, wire);
            && rx'.finished == rx.finished && rx'.delivered == rx.delivered && rx'.places == rx.places
            && |rx'.main| == |rx'.temp| == |rx.main|
            && (forall i :: 0 <= i < |rx.queue| ==>
                  rx.queue[i].channel < |rx.main| && X.Owned(rx'.main, rx'.temp, rx.queue[i]) == X.Owned(rx.main, rx.temp, rx.queue[i]))
            && (|| (rx'.queue == rx.queue && rx'.received == rx.received)
                || Taken(rx, rx', wire))
  {
    hide R.Enqueue, X.Waiting, X.InOrder;
    X.BuffersFit(g, rx, channel, wire);
    if channel < |rx.main| && X.Fits(g, wire) {
      var x := X.Slot(channel, rx.main[channel].needVerify);
      if !X.Owned(rx.main, rx.temp, x).needVerify {
        assert x !in rx.queue;
        X.StoreElsewhere(rx, x, X.Buffer(|rx.queue| != 15, R.Enqueue(X.Owned(rx.main, rx.temp, x).entry.buf, wire)));
      }
    }
  }

  /** One more intact entry for the transmission that arrives. */
  ghost predicate Taken(rx: X.Peer, rx': X.Peer, wire: bytes) {
    && |rx'.queue| == |rx.queue| + 1 && rx'.queue[..|rx.queue|] == rx.queue && rx'.received == rx.received + [wire]
    && |rx'.main| == |rx'.temp| && rx'.queue[|rx.queue|].channel < |rx'.main|
    && exists buf :: R.Room(buf, wire) && X.Owned(rx'.main, rx'.temp, rx'.queue[|rx.queue|]).entry == R.Enqueue(buf, wire)
  }

  lemma TakenPipeline(g: X.Config, accepted: seq<Message>, sent: seq<Copy>, taken: nat, arrived: seq<nat>, rx: X.Peer, rx': X.Peer)
    requires PipelineOk(g, accepted, sent, arrived, rx) && taken < |sent| && CopyOk(g, accepted, sent[taken]) && g.k.Valid()
    requires Taken(rx, rx', Wire(g.k, accepted[sent[taken].pos].t, sent[taken].m))
    requires rx'.finished == rx.finished && rx'.delivered == rx.delivered && rx'.places == rx.places && |rx'.main| == |rx.main|
    requires forall i :: 0 <= i < |rx.queue| ==> X.Owned(rx'.main, rx'.temp, rx.queue[i]) == X.Owned(rx.main, rx.temp, rx.queue[i])
    ensures PipelineOk(g, accepted, sent, arrived + [taken], rx')
  {
    hide R.Inv, T.Wire, R.Room, R.Enqueue, X.Owned, R.Agree;
    var x := sent[taken];
    var wire := Wire(g.k, accepted[x.pos].t, x.m);
    var buf :| R.Room(buf, wire) && X.Owned(rx'.main, rx'.temp, rx'.queue[|rx.queue|]).entry == R.Enqueue(buf, wire);
    R.EnqueueInv(g.k, accepted[x.pos].t, g.c, x.m, buf);
    SameQueue(rx, rx');
  }

  lemma TakenArrives(k: Crypto, accepted: seq<Message>, sent: seq<Copy>, taken: nat, arrived: seq<nat>, received: seq<bytes>)
    requires ArrivedOk(k, accepted, sent, taken, arrived, received) && taken < |sent| && sent[taken].pos < |accepted|
    ensures ArrivedOk(k, accepted, sent, taken + 1, arrived, received)
    ensures ArrivedOk(k, accepted, sent, taken + 1, arrived + [taken], received + [Wire(k, accepted[sent[taken].pos].t, sent[taken].m)])
  {
    hide Wire;
  }

  lemma SamePipeline(g: X.Config, accepted: seq<Message>, sent: seq<Copy>, arrived: seq<nat>, rx: X.Peer, rx': X.Peer)
    requires PipelineOk(g, accepted, sent, arrived, rx) && rx'.queue == rx.queue && |rx'.main| == |rx'.temp| == |rx.main|
    requires rx'.finished == rx.finished && rx'.delivered == rx.delivered && rx'.places == rx.places
    requires forall i :: 0 <= i < |rx.queue| ==> X.Owned(rx'.main, rx'.temp, rx.queue[i]) == X.Owned(rx.main, rx.temp, rx.queue[i])
    ensures PipelineOk(g, accepted, sent, arrived, rx')
  {
    hide EntryOk, X.Owned;
  }

  lemma ArriveKeeps(g: X.Config, y: Sys, channel: nat)
    requires Inv(g, y) && y.taken < |y.sent|
    ensures Inv(g, Arrive(g, y, channel))
  {
    hide X.Inv, X.Indicate, QueueOk, Wire, X.Owned, R.Room, R.Enqueue, PipelineOk, ArrivedOk, CopyOk;
    ValidCrypto(g, y);
    assert CopyOk(g, y.accepted, y.sent[y.taken]);
    KnownMessage(g, y.accepted, y.sent[y.taken]);
    var wire := Wire(g.k, y.accepted[y.sent[y.taken].pos].t, y.sent[y.taken].m);
    X.IndicateKeeps(g, y.rx, channel, wire);
    IndicateEffect(g, y.rx, channel, wire);
    TakenArrives(g.k, y.accepted, y.sent, y.taken, y.arrived, y.rx.received);
    var rx := X.Indicate(g, y.rx, channel, wire);
    if rx.queue == y.rx.queue {
      SamePipeline(g, y.accepted, y.sent, y.arrived, y.rx, rx);
    } else {
      TakenPipeline(g, y.accepted, y.sent, y.taken, y.arrived, y.rx, rx);
    }
  }

  lemma KnownMessage(g: X.Config, accepted: seq<Message>, x: Copy)
    requires CopyOk(g, accepted, x)
    ensures x.pos < |accepted| && x.wire == Wire(g.k, accepted[x.pos].t, x.m)
  {
  }

  lemma SameQueue(rx: X.Peer, rx': X.Peer)
    requires (|rx'.queue| > |rx.queue| && rx'.queue[..|rx.queue|] == rx.queue) || rx'.queue == rx.queue
    ensures forall i :: 0 <= i < |rx.queue| ==> rx'.queue[i] == rx.queue[i]
  {
    assert |rx'.queue| > |rx.queue| ==> forall i :: 0 <= i < |rx.queue| ==> rx'.queue[..|rx.queue|][i] == rx.queue[i];
  }

  /** A cycle on the head entry, which became e: it stays at the head, or leaves the queue with what it handed over. */
  ghost predicate WorkedOn(rx: X.Peer, rx': X.Peer, e: R.State) {
    && rx.queue != [] && |rx'.main| == |rx'.temp| == |rx.main| == |rx.temp| && rx'.received == rx.received && |e.delivered| <= 1
    && (forall i :: 0 <= i < |rx.queue| ==> rx.queue[i].channel < |rx.main|)
    && (forall i :: 0 < i < |rx.queue| ==> X.Owned(rx'.main, rx'.temp, rx.queue[i]) == X.Owned(rx.main, rx.temp, rx.queue[i]))
    && (|| (&& rx'.queue == rx.queue && rx'.finished == rx.finished && rx'.delivered == rx.delivered && rx'.places == rx.places
            && X.Owned(rx'.main, rx'.temp, rx.queue[0]).entry == e)
        || (&& rx'.queue == rx.queue[1..] && rx'.finished == rx.finished + 1 && rx'.delivered == rx.delivered + e.delivered
            && rx'.places == if e.delivered == [] then rx.places else rx.places + [rx.finished]))
  }

  lemma CycleEffect(g: X.Config, rx: X.Peer, env: R.Env)
    requires X.Inv(g, rx) && rx.queue != []
    ensures rx.queue[0].channel < |rx.main| == |rx.temp| && R.Sized(X.Owned(rx.main, rx.temp, rx.queue[0]).entry) && g.k.Valid()
    ensures WorkedOn(rx, X.Cycle(g, rx, env), R.Cycle(g.k, g.c, X.Owned(rx.main, rx.temp, rx.queue[0]).entry, env))
  {
    hide R.Cycle, X.InOrder;
    X.HeadOwned(g, rx);
    var x := rx.queue[0];
    X.EntryCycles(g.k, g.c, X.Owned(rx.main, rx.temp, x).entry, env);
    var e := R.Cycle(g.k, g.c, X.Owned(rx.main, rx.temp, x).entry, env);
    X.StoreElsewhere(rx, x, X.Buffer(!X.Over(g.c, e), e));
  }

  /** The pipeline goes on meaning the transmissions its entries came from. */
  lemma PipelineKeeps(g: X.Config, accepted: seq<Message>, sent: seq<Copy>, arrived: seq<nat>, rx: X.Peer, rx': X.Peer, e: R.State)
    requires PipelineOk(g, accepted, sent, arrived, rx) && WorkedOn(rx, rx', e)
    requires EntryOk(g, accepted, sent[arrived[rx.finished]], e)
    requires e.delivered == [] || e.delivered == [sent[arrived[rx.finished]].m.p]
    ensures PipelineOk(g, accepted, sent, arrived, rx')
  {
    hide EntryOk, X.Owned;
    if rx'.queue == rx.queue[1..] {
      assert forall i :: 0 <= i < |rx'.queue| ==> rx'.queue[i] == rx.queue[i + 1];
    }
  }

  lemma RxCycleKeeps(g: X.Config, y: Sys, env: R.Env)
    requires Inv(g, y) && InSync(y, env)
    ensures Inv(g, y.(rx := X.Cycle(g, y.rx, env)))
  {
    hide X.Inv, X.Cycle, QueueOk, SentOk, R.Inv, T.Wire, R.Cycle, X.Owned, R.InSync;
    X.CycleKeeps(g, y.rx, env);
    if y.rx.queue != [] {
      CycleEffect(g, y.rx, env);
      var x := y.sent[y.arrived[y.rx.finished]];
      var entry := X.Owned(y.rx.main, y.rx.temp, y.rx.queue[0]).entry;
      R.CycleInv(g.k, y.accepted[x.pos].t, g.c, x.m, entry, env);
      var e := R.Cycle(g.k, g.c, entry, env);
      HandsOver(g.k, y.accepted[x.pos].t, g.c, x.m, e);
      PipelineKeeps(g, y.accepted, y.sent, y.arrived, y.rx, X.Cycle(g, y.rx, env), e);
    } else {
      NoHead(g, y.rx, env);
    }
  }

  lemma NoHead(g: X.Config, rx: X.Peer, env: R.Env)
    requires X.Inv(g, rx) && rx.queue == []
    ensures X.Cycle(g, rx, env) == rx
  {
  }

  lemma HandsOver(k: Crypto, t: T.Config, c: R.Config, m: R.Sealed, e: R.State)
    requires R.Inv(k, t, c, m, e)
    ensures e.delivered == [] || e.delivered == [m.p]
  {
  }

  // ----- Runs -------------------------------------------------------------------------------------------

  lemma LoseKeeps(g: X.Config, y: Sys)
    requires Inv(g, y)
    ensures Inv(g, Step(g, y, ELose))
  {
    hide QueueOk, SentOk, PipelineOk, X.Inv, Wire;
  }

  lemma StepKeeps(g: X.Config, y: Sys, e: Event)
    requires Inv(g, y)
    ensures Inv(g, Step(g, y, e))
  {
    hide Inv, Accept, WithHead, Carry, Arrive, T.Cycle, T.Confirm, X.Cycle, InSync, R.Agree;
    match e
    case EAccept(t, buf, p1, p2) => if T.Room(buf, |p1| + |p2|) && R.Agree(t, g.c) { AcceptKeeps(g, y, t, buf, p1, p2); }
    case ETxCycle(env) => TxCycleKeeps(g, y, env);
    case EConfirm(result) => ConfirmKeeps(g, y, result);
    case ERemove => RemoveKeeps(g, y);
    case ECarry => if y.queue != [] { CarryKeeps(g, y); }
    case EArrive(channel) => if y.taken < |y.sent| { ArriveKeeps(g, y, channel); }
    case ELose => LoseKeeps(g, y);
    case ERxCycle(env) => if InSync(y, env) { RxCycleKeeps(g, y, env); }
  }

  lemma StartsOk(g: X.Config, n: nat)
    requires g.Valid()
    ensures Inv(g, Init(g, n))
  {
    assert X.Run(g, n, []) == X.Init(g, n);
  }

  ghost function Run(g: X.Config, n: nat, events: seq<Event>): (y: Sys)
    requires g.Valid()
    ensures Inv(g, y)
  {
    if events == [] then
      StartsOk(g, n);
      Init(g, n)
    else
      var y := Run(g, n, events[..|events| - 1]);
      StepKeeps(g, y, events[|events| - 1]);
      Step(g, y, events[|events| - 1])
  }

  /** Payload d was transmission number which[d], and transmissions follow the order of acceptance. */
  ghost predicate Traces(y: Sys, which: seq<nat>) {
    && |which| == |y.rx.delivered|
    && (forall d, e :: 0 <= d < e < |which| ==> which[d] < which[e])
    && (forall d :: 0 <= d < |which| ==>
          && which[d] < |y.sent| && y.sent[which[d]].pos < |y.accepted|
          && y.rx.delivered[d] == y.accepted[y.sent[which[d]].pos].payload)
    && (forall i, j :: 0 <= i < j < |y.sent| ==> y.sent[i].pos <= y.sent[j].pos)
  }

  /**
   * End to end: in every run each payload handed to the application is a payload accepted for this peer, in acceptance
   * order, and each transmission is handed over at most once.
   */
  lemma PayloadsInOrder(g: X.Config, n: nat, events: seq<Event>)
    requires g.Valid()
    ensures exists which :: Traces(Run(g, n, events), which)
  {
    hide Run, Inv, Traces;
    var which := TraceBack(g, Run(g, n, events));
  }

  lemma TraceBack(g: X.Config, y: Sys) returns (which: seq<nat>)
    requires Inv(g, y)
    ensures Traces(y, which)
  {
    hide X.Waiting, X.Ownership, QueueOk, EntryOk, CopyOk, Wire;
    which := seq(|y.rx.places|, d requires 0 <= d < |y.rx.places| && y.rx.places[d] < |y.arrived| => y.arrived[y.rx.places[d]]);
    forall d | 0 <= d < |which|
      ensures which[d] < |y.sent| && y.sent[which[d]].pos < |y.accepted|
      ensures y.rx.delivered[d] == y.accepted[y.sent[which[d]].pos].payload
    {
      CopyMeans(g, y.accepted, y.sent[which[d]]);
    }
  }

  lemma CopyMeans(g: X.Config, accepted: seq<Message>, x: Copy)
    requires CopyOk(g, accepted, x)
    ensures x.pos < |accepted| && x.m.p == accepted[x.pos].payload
  {
  }

  /** Payloads repeated at the application come from a transmission that was repeated after a failed confirmation. */
  lemma OnceWithoutRetry(g: X.Config, n: nat, events: seq<Event>)
    requires g.Valid() && !Run(g, n, events).retried
    ensures var y := Run(g, n, events); forall i, j :: 0 <= i < j < |y.sent| ==> y.sent[i].pos < y.sent[j].pos
  {
    hide Step;
  }
}
