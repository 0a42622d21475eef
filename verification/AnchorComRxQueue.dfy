/** The Rx queue of one peer, the two receive buffers of each of its transport channels, and the pipeline at its head. */
module AnchorComRxQueue {
  import opened Bytes
  import opened AnchorComFormat
  import opened AnchorComRing
  import R = AnchorComRx
  import TQ = AnchorComTxQueue

  /** Crypto services, message table, least length of a message with its channel id, and size of a receive buffer. */
  datatype Config = Config(k: Crypto, c: R.Config, minLen: nat, bufLen: nat) {
    ghost predicate Valid() {
      && k.Valid() && HEADER_LEN + APPEND_LEN <= minLen
      && CHANID_LEN + minLen + APPEND_LEN <= bufLen <= R.MAX_BUFFER
    }
  }

  /** A receive buffer: owned while needVerify is set, with the pipeline entry that works on it. */
  datatype Buffer = Buffer(needVerify: bool, entry: R.State)

  /** A queue entry points at a buffer: main or temporary buffer of a channel. */
  datatype Slot = Slot(channel: nat, temp: bool)

  /**
   * Main and temporary buffers by channel, and the queue. History: the messages queued so far, the number finished
   * with, and the payloads handed to the application, each with its place in reception order.
   */
  datatype Peer = Peer(
    main: seq<Buffer>, temp: seq<Buffer>, queue: seq<Slot>,
    received: seq<bytes>, finished: nat, delivered: seq<bytes>, places: seq<nat>)

  function Unused(g: Config): Buffer {
    Buffer(false, R.State(Fill(g.bufLen, 0), 0, R.ProcessDone, R.Message(0, false, false), 0, [], 0, []))
  }

  function Init(g: Config, n: nat): Peer {
    Peer(seq(n, _ => Unused(g)), seq(n, _ => Unused(g)), [], [], 0, [], [])
  }

  function Owned(main: seq<Buffer>, temp: seq<Buffer>, x: Slot): Buffer
    requires x.channel < |main| == |temp|
  {
    if x.temp then temp[x.channel] else main[x.channel]
  }

  function Store(s: Peer, x: Slot, b: Buffer): Peer
    requires x.channel < |s.main| == |s.temp|
  {
    if x.temp then s.(temp := s.temp[x.channel := b]) else s.(main := s.main[x.channel := b])
  }

  /** A message of this length is long enough, and fits the buffer as the transport layer makes sure. */
  predicate Fits(g: Config, wire: bytes) {
    g.minLen <= CHANID_LEN + |wire| && CHANID_LEN + |wire| + APPEND_LEN <= g.bufLen
  }

  /** Fill a free buffer and queue it; a full queue gives the buffer back. */
  function Put(s: Peer, x: Slot, wire: bytes): Peer
    requires x.channel < |s.main| == |s.temp| && R.Room(Owned(s.main, s.temp, x).entry.buf, wire)
  {
    var entry := R.Enqueue(Owned(s.main, s.temp, x).entry.buf, wire);
    if |s.queue| == SIZE - 1 then Store(s, x, Buffer(false, entry))
    else Store(s, x, Buffer(true, entry)).(queue := s.queue + [x], received := s.received + [wire])
  }

  /** rbdAnchorComTp_TpRxIndication with E_OK: main buffer first, then the temporary one, else dropped. */
  function Indicate(g: Config, s: Peer, channel: nat, wire: bytes): Peer
    requires Inv(g, s)
  {
    if channel >= |s.main| || !Fits(g, wire) then s
    else if !s.main[channel].needVerify then Put(s, Slot(channel, false), wire)
    else if !s.temp[channel].needVerify then Put(s, Slot(channel, true), wire)
    else s
  }

  /** The entry is finished with: handed over, or given up. */
  predicate Over(c: R.Config, e: R.State) {
    e.err >= c.maxRetry || e.q == R.ProcessDone
  }

  /** One pass of rbdAnchorCom_CyclicRx over this peer: the pipeline works on the buffer of the head entry. */
  function Cycle(g: Config, s: Peer, env: R.Env): Peer
    requires Inv(g, s)
  {
    if s.queue == [] then s
    else
      var x := s.queue[0];
      var e := R.Cycle(g.k, g.c, Owned(s.main, s.temp, x).entry, env);
      if !Over(g.c, e) then Store(s, x, Buffer(true, e))
      else Store(s, x, Buffer(false, e)).(
             queue := s.queue[1..], finished := s.finished + 1, delivered := s.delivered + e.delivered,
             places := if e.delivered == [] then s.places else s.places + [s.finished])
  }

  // ----- Invariant ----------------------------------------------------------------------------------------

  /** Position of a buffer among all buffers of the peer. */
  function Code(x: Slot): nat {
    2 * x.channel + if x.temp then 1 else 0
  }

  ghost predicate Distinct(q: seq<Slot>) {
    forall i, j :: 0 <= i < j < |q| ==> q[i] != q[j]
  }

  /** Each set flag belongs to one queue entry and each entry to one set flag; buffers keep their size. */
  ghost predicate Ownership(g: Config, main: seq<Buffer>, temp: seq<Buffer>, queue: seq<Slot>) {
    && |main| == |temp| && Distinct(queue)
    && (forall i :: 0 <= i < |queue| ==> queue[i].channel < |main|)
    && (forall x: Slot :: x.channel < |main| ==> (Owned(main, temp, x).needVerify <==> x in queue))
    && (forall x: Slot :: x.channel < |main| ==> |Owned(main, temp, x).entry.buf| == g.bufLen)
  }

  /** The entry has not been worked on: its buffer holds the message as it was received. */
  ghost predicate Intact(e: R.State, wire: bytes) {
    && e.q == R.Queued && e.err == 0 && e.dataLen == CHANID_LEN + |wire| <= |e.buf|
    && e.buf[CHANID_LEN..e.dataLen] == wire
  }

  /** An entry in the pipeline that has not yet handed over anything. */
  ghost predicate Working(e: R.State) {
    R.Sized(e) && e.delivered == [] && e.q != R.ProcessDone
  }

  /** Every queued entry can go on, and those behind the head are untouched. */
  ghost predicate Waiting(main: seq<Buffer>, temp: seq<Buffer>, queue: seq<Slot>, received: seq<bytes>, finished: nat) {
    && |main| == |temp| && |received| == finished + |queue|
    && (forall i :: 0 <= i < |queue| ==> queue[i].channel < |main| && Working(Owned(main, temp, queue[i]).entry))
    && forall i :: 0 < i < |queue| ==> Intact(Owned(main, temp, queue[i]).entry, received[finished + i])
  }

  /** Deliveries come from distinct received messages in reception order. */
  ghost predicate InOrder(finished: nat, delivered: seq<bytes>, places: seq<nat>) {
    && |places| == |delivered|
    && (forall i, j :: 0 <= i < j < |places| ==> places[i] < places[j])
    && (forall i :: 0 <= i < |places| ==> places[i] < finished)
  }

  ghost predicate Inv(g: Config, s: Peer) {
    && g.Valid() && Ownership(g, s.main, s.temp, s.queue)
    && Waiting(s.main, s.temp, s.queue, s.received, s.finished) && InOrder(s.finished, s.delivered, s.places)
  }

  /** A queue of distinct buffers is no longer than the number of buffers. */
  lemma QueueBound(q: seq<Slot>, n: nat)
    requires Distinct(q) && forall i :: 0 <= i < |q| ==> q[i].channel < n
    ensures |q| <= 2 * n
  {
    var codes := seq(|q|, i requires 0 <= i < |q| => Code(q[i]));
    assert TQ.Distinct(codes) by {
      forall i, j | 0 <= i < j < |q| ensures codes[i] != codes[j] {
        assert q[i] != q[j];
      }
    }
    TQ.Pigeonhole(codes, 2 * n);
  }

  /** With at most seven channels a free buffer always finds room in the queue. */
  lemma FreeBufferFits(g: Config, s: Peer, x: Slot)
    requires Ownership(g, s.main, s.temp, s.queue) && |s.main| <= 7 && x.channel < |s.main|
    requires !Owned(s.main, s.temp, x).needVerify
    ensures |s.queue| < SIZE - 1
  {
    QueueBound(s.queue + [x], |s.main|);
  }

  lemma Enqueued(buf: bytes, wire: bytes)
    requires R.Room(buf, wire)
    ensures var e := R.Enqueue(buf, wire); Working(e) && Intact(e, wire) && |e.buf| == |buf|
  {
  }

  /** A buffer that no entry owns can be replaced. */
  lemma StoreElsewhere(s: Peer, x: Slot, b: Buffer)
    requires |s.main| == |s.temp| && x.channel < |s.main|
    ensures var s' := Store(s, x, b);
            && |s'.main| == |s'.temp| == |s.main| && Owned(s'.main, s'.temp, x) == b
            && forall y: Slot :: y.channel < |s.main| && y != x ==> Owned(s'.main, s'.temp, y) == Owned(s.main, s.temp, y)
  {
  }

  /** A buffer filled for the queue belongs to its new entry; one that finds no place stays free. */
  lemma PutOwns(g: Config, s: Peer, x: Slot, b: Buffer)
    requires Ownership(g, s.main, s.temp, s.queue) && x.channel < |s.main| && !Owned(s.main, s.temp, x).needVerify
    requires |b.entry.buf| == g.bufLen
    ensures var s' := Store(s, x, b); Ownership(g, s'.main, s'.temp, if b.needVerify then s.queue + [x] else s.queue)
  {
    hide Owned;
    StoreElsewhere(s, x, b);
    assert x !in s.queue;
    assert forall y :: y in s.queue + [x] <==> y == x || y in s.queue;
  }

  lemma PutWaits(s: Peer, x: Slot, b: Buffer, wire: bytes)
    requires Waiting(s.main, s.temp, s.queue, s.received, s.finished) && x.channel < |s.main| && x !in s.queue
    requires Working(b.entry) && Intact(b.entry, wire)
    ensures var s' := Store(s, x, b);
            && Waiting(s'.main, s'.temp, s.queue, s.received, s.finished)
            && Waiting(s'.main, s'.temp, s.queue + [x], s.received + [wire], s.finished)
  {
    hide Working, Intact, Owned;
    StoreElsewhere(s, x, b);
    assert forall i :: 0 <= i < |s.queue| ==> (s.queue + [x])[i] == s.queue[i] && s.queue[i] != x;
  }

  /** Filling a free buffer keeps every other entry's bytes. */
  lemma PutKeeps(g: Config, s: Peer, x: Slot, wire: bytes)
    requires Inv(g, s) && x.channel < |s.main| && !Owned(s.main, s.temp, x).needVerify && Fits(g, wire)
    ensures R.Room(Owned(s.main, s.temp, x).entry.buf, wire) && Inv(g, Put(s, x, wire))
  {
    hide InOrder, Working, Intact, Owned, Waiting, R.Enqueue;
    assert x !in s.queue;
    var entry := R.Enqueue(Owned(s.main, s.temp, x).entry.buf, wire);
    Enqueued(Owned(s.main, s.temp, x).entry.buf, wire);
    var b := Buffer(|s.queue| != SIZE - 1, entry);
    PutOwns(g, s, x, b);
    PutWaits(s, x, b, wire);
    hide Ownership;
  }

  lemma IndicateKeeps(g: Config, s: Peer, channel: nat, wire: bytes)
    requires Inv(g, s)
    ensures Inv(g, Indicate(g, s, channel, wire))
  {
    if channel < |s.main| && Fits(g, wire) {
      if !s.main[channel].needVerify {
        PutKeeps(g, s, Slot(channel, false), wire);
      } else if !s.temp[channel].needVerify {
        PutKeeps(g, s, Slot(channel, true), wire);
      }
    }
    hide Inv, Put;
  }

  /** The pipeline keeps the size of its buffer, and hands over one payload exactly when it is done. */
  lemma EntryCycles(k: Crypto, c: R.Config, e: R.State, env: R.Env)
    requires k.Valid() && Working(e)
    ensures var e' := R.Cycle(k, c, e, env);
            && |e'.buf| == |e.buf| && (e'.q == R.ProcessDone || Working(e'))
            && |e'.delivered| == if e'.q == R.ProcessDone then 1 else 0
  {
    hide R.Part1, R.Part2, R.Part3, Working;
    WorkingSized(e);
    VerifyCycles(k, c, e, env);
    DecryptCycles(k, c, R.Part1(k, c, e, env), env);
  }

  lemma VerifyCycles(k: Crypto, c: R.Config, e: R.State, env: R.Env)
    requires k.Valid() && Working(e)
    ensures var e' := R.Part1(k, c, e, env); |e'.buf| == |e.buf| && Working(e') && R.Sized(e')
  {
    hide Write;
  }

  lemma DecryptCycles(k: Crypto, c: R.Config, e: R.State, env: R.Env)
    requires k.Valid() && Working(e) && R.Sized(e)
    ensures var e' := R.Part3(c, R.Part2(k, c, e, env));
            && |e'.buf| == |e.buf| && (e'.q == R.ProcessDone || Working(e'))
            && |e'.delivered| == if e'.q == R.ProcessDone then 1 else 0
  {
    hide Write;
  }

  /** The head entry points at a buffer of the peer. */
  lemma HeadOwned(g: Config, s: Peer)
    requires Inv(g, s)
    ensures g.k.Valid() && |s.main| == |s.temp|
    ensures s.queue != [] ==> s.queue[0].channel < |s.main|
    ensures s.queue != [] ==> var e := Owned(s.main, s.temp, s.queue[0]).entry; Working(e) && |e.buf| == g.bufLen
  {
  }

  lemma WorkingSized(e: R.State)
    ensures Working(e) ==> R.Sized(e)
  {
  }

  /** A message that fits has room in either buffer of its channel. */
  lemma BuffersFit(g: Config, s: Peer, channel: nat, wire: bytes)
    requires Inv(g, s)
    ensures |s.main| == |s.temp|
    ensures channel < |s.main| && Fits(g, wire) ==> R.Room(s.main[channel].entry.buf, wire) && R.Room(s.temp[channel].entry.buf, wire)
  {
    if channel < |s.main| {
      assert Owned(s.main, s.temp, Slot(channel, false)) == s.main[channel];
      assert Owned(s.main, s.temp, Slot(channel, true)) == s.temp[channel];
    }
  }

  /** The head entry goes on in its own buffer. */
  lemma WorkKeeps(g: Config, s: Peer, b: Buffer)
    requires Inv(g, s) && s.queue != [] && b.needVerify && Working(b.entry) && |b.entry.buf| == g.bufLen
    ensures Inv(g, Store(s, s.queue[0], b))
  {
    hide InOrder, Working, Intact, Owned;
    StoreElsewhere(s, s.queue[0], b);
    assert s.queue[0] in s.queue;
    assert forall i :: 0 < i < |s.queue| ==> s.queue[i] != s.queue[0];
  }

  /** The head entry gives its buffer back. */
  lemma ReleaseKeeps(g: Config, s: Peer, b: Buffer)
    requires Inv(g, s) && s.queue != [] && !b.needVerify && |b.entry.buf| == g.bufLen
    ensures var s' := Store(s, s.queue[0], b);
            && Ownership(g, s'.main, s'.temp, s.queue[1..])
            && Waiting(s'.main, s'.temp, s.queue[1..], s.received, s.finished + 1)
  {
    hide InOrder, Working, Intact, Waiting;
    ReleaseOwns(g, s, b);
    ReleaseWaits(s, b);
  }

  lemma ReleaseOwns(g: Config, s: Peer, b: Buffer)
    requires Ownership(g, s.main, s.temp, s.queue) && s.queue != [] && !b.needVerify && |b.entry.buf| == g.bufLen
    ensures var s' := Store(s, s.queue[0], b); Ownership(g, s'.main, s'.temp, s.queue[1..])
  {
    hide Owned;
    StoreElsewhere(s, s.queue[0], b);
    var rest := s.queue[1..];
    assert s.queue == [s.queue[0]] + rest;
    assert s.queue[0] !in rest;
    assert forall y :: y in s.queue <==> y == s.queue[0] || y in rest;
  }

  lemma ReleaseWaits(s: Peer, b: Buffer)
    requires Waiting(s.main, s.temp, s.queue, s.received, s.finished) && s.queue != [] && Distinct(s.queue)
    ensures var s' := Store(s, s.queue[0], b); Waiting(s'.main, s'.temp, s.queue[1..], s.received, s.finished + 1)
  {
    hide Working, Intact, Owned;
    StoreElsewhere(s, s.queue[0], b);
    assert forall i :: 0 <= i < |s.queue[1..]| ==> s.queue[1..][i] == s.queue[i + 1] && s.queue[i + 1] != s.queue[0];
  }

  lemma InOrderGrows(finished: nat, delivered: seq<bytes>, places: seq<nat>, more: seq<bytes>)
    requires InOrder(finished, delivered, places) && |more| <= 1
    ensures InOrder(finished + 1, delivered + more, if more == [] then places else places + [finished])
  {
  }

  lemma CycleKeeps(g: Config, s: Peer, env: R.Env)
    requires Inv(g, s)
    ensures Inv(g, Cycle(g, s, env))
  {
    hide Ownership, Waiting, InOrder, R.Cycle, Working;
    if s.queue != [] {
      var x := s.queue[0];
      HeadOwned(g, s);
      EntryCycles(g.k, g.c, Owned(s.main, s.temp, x).entry, env);
      var e := R.Cycle(g.k, g.c, Owned(s.main, s.temp, x).entry, env);
      if Over(g.c, e) {
        ReleaseKeeps(g, s, Buffer(false, e));
        InOrderGrows(s.finished, s.delivered, s.places, e.delivered);
      } else {
        WorkKeeps(g, s, Buffer(true, e));
      }
    }
  }

  datatype Event = EIndicate(channel: nat, wire: bytes) | ECycle(env: R.Env)

  ghost function Run(g: Config, n: nat, events: seq<Event>): (s: Peer)
    requires g.Valid()
    ensures Inv(g, s) && |s.main| == n
  {
    if events == [] then Init(g, n)
    else
      var s, e := Run(g, n, events[..|events| - 1]), events[|events| - 1];
      match e
      case EIndicate(channel, wire) =>
        IndicateKeeps(g, s, channel, wire);
        Indicate(g, s, channel, wire)
      case ECycle(env) =>
        CycleKeeps(g, s, env);
        Cycle(g, s, env)
  }

  /**
   * In every run over at most seven channels, whatever the pipeline meets: each needVerify flag is set exactly when one
   * queue entry owns that buffer, the messages behind the head are intact, a free buffer can always be queued, and the
   * application is handed at most one payload per received message, in reception order.
   */
  lemma BuffersAreOwned(g: Config, n: nat, events: seq<Event>)
    requires g.Valid() && n <= 7
    ensures var s := Run(g, n, events);
            && (forall x: Slot :: x.channel < n ==> (Owned(s.main, s.temp, x).needVerify <==> x in s.queue)) && Distinct(s.queue)
            && Waiting(s.main, s.temp, s.queue, s.received, s.finished)
            && (forall x: Slot :: x.channel < n && !Owned(s.main, s.temp, x).needVerify ==> |s.queue| < SIZE - 1)
            && InOrder(s.finished, s.delivered, s.places)
  {
    hide Waiting, InOrder;
    var s := Run(g, n, events);
    forall x: Slot | x.channel < n && !Owned(s.main, s.temp, x).needVerify ensures |s.queue| < SIZE - 1 {
      FreeBufferFits(g, s, x);
    }
  }

  // ----- The bound is exact -----------------------------------------------------------------------------

  /** Fill main and temporary buffers of the first channels with k messages of the least length. */
  ghost function Filling(g: Config, k: nat): seq<Event> {
    if k == 0 then [] else Filling(g, k - 1) + [EIndicate((k - 1) / 2, Fill(g.minLen, 0))]
  }

  ghost predicate Filled(s: Peer, k: nat) {
    && |s.main| == |s.temp| && |s.queue| == k
    && forall c :: 0 <= c < |s.main| ==> (s.main[c].needVerify <==> 2 * c < k) && (s.temp[c].needVerify <==> 2 * c + 1 < k)
  }

  lemma EmptyIsFilled(g: Config, n: nat)
    ensures Filled(Init(g, n), 0)
  {
  }

  lemma FillStep(g: Config, s: Peer, k: nat)
    requires Inv(g, s) && Filled(s, k) && k < 2 * |s.main| && k + 1 < SIZE
    ensures Filled(Indicate(g, s, k / 2, Fill(g.minLen, 0)), k + 1)
  {
    hide Waiting, InOrder, Ownership, R.Enqueue;
  }

  lemma FillingGrows(g: Config, k: nat)
    ensures k == 0 ==> Filling(g, k) == []
    ensures k > 0 ==> var events := Filling(g, k);
                      && events != [] && events[|events| - 1] == EIndicate((k - 1) / 2, Fill(g.minLen, 0))
                      && events[..|events| - 1] == Filling(g, k - 1)
  {
  }

  lemma {:induction false} FillingFills(g: Config, n: nat, k: nat)
    requires g.Valid() && k <= 2 * n && k < SIZE
    ensures Filled(Run(g, n, Filling(g, k)), k)
  {
    hide Filled, Inv, Indicate, Filling;
    EmptyIsFilled(g, n);
    FillingGrows(g, k);
    if k > 0 {
      FillingFills(g, n, k - 1);
      FillStep(g, Run(g, n, Filling(g, k - 1)), k - 1);
    }
  }

  /** Whatever the least length, from eight channels on there is a run in which a buffer is free and the queue refuses it. */
  lemma EightChannelsOverflow(g: Config, n: nat)
    requires g.Valid() && n >= 8
    ensures exists events, x: Slot :: x.channel < n && !Owned(Run(g, n, events).main, Run(g, n, events).temp, x).needVerify
                                      && |Run(g, n, events).queue| == SIZE - 1
  {
    FillingFills(g, n, SIZE - 1);
    var s := Run(g, n, Filling(g, SIZE - 1));
    assert !Owned(s.main, s.temp, Slot(7, true)).needVerify && |s.queue| == SIZE - 1;
  }
}
