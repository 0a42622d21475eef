/**
 * Who CanIf calls: over whole runs, each layer above gets exactly one confirmation for each transmission that is
 * confirmed or faked, and exactly the frames whose identifier is first found to be its own.
 */
module CanIfRuns {
  import opened Bytes
  import opened CanTpConfig
  import opened CanTpFrames
  import opened CanIf
  import S = CanTpSender
  import R = CanTpReceiver

  /** Calls into CanIf; between them the transport layer may bring its channels into any consistent state. */
  datatype Event =
    | ETransmit(p: nat, started: bool, driverOk: bool)
    | EConfirm(now: nat, p: nat)
    | EReceive(now: nat, id: bv32, frame: R.CanFrame, env: R.RxEnv)
    | ETransport(tx: seq<S.State>, rx: seq<R.State>)

  ghost predicate Possible(c: Config, e: Event) {
    e.ETransport? ==>
      && |e.tx| == |c.tx| && (forall i :: 0 <= i < |c.tx| ==> S.Inv(c.tx[i], e.tx[i]))
      && |e.rx| == |c.rx| && (forall i :: 0 <= i < |c.rx| ==> R.Inv(c.rx[i], e.rx[i]))
  }

  function Transmit(s: State, p: nat, started: bool, driverOk: bool): State {
    if p < |s.pending| && started && driverOk then s.(pending := s.pending[p := true]) else s
  }

  ghost function Step(c: Config, s: State, e: Event): State
    requires Inv(c, s)
  {
    match e
    case ETransmit(p, started, driverOk) => Transmit(s, p, started, driverOk)
    case EConfirm(now, p) => TxConfirmation(c, s, now, p)
    case EReceive(now, id, f, env) => RxIndication(c, s, now, id, f, env)
    case ETransport(tx, rx) => if Possible(c, e) then s.(tx := tx, rx := rx) else s
  }

  lemma StepKeeps(c: Config, s: State, e: Event)
    requires Inv(c, s)
    ensures Inv(c, Step(c, s, e))
  {
    hide S.Inv, R.Inv, TxConfirmation, RxIndication;
    match e
    case EConfirm(now, p) => ConfirmationKeeps(c, s, now, p);
    case EReceive(now, id, f, env) => IndicationKeeps(c, s, now, id, f, env);
    case _ =>
  }

  ghost function Run(c: Config, s: State, events: seq<Event>): (s': State)
    requires Inv(c, s)
    ensures Inv(c, s')
  {
    if events == [] then s
    else
      var before := Run(c, s, events[..|events| - 1]);
      StepKeeps(c, before, events[|events| - 1]);
      Step(c, before, events[|events| - 1])
  }

  // ----- What is due --------------------------------------------------------------------------------------

  /** Two identifiers agree once the CAN FD flags are set in both. */
  predicate Agree(a: bv32, b: bv32, flags: bv32) {
    a | flags == b | flags
  }

  /** q is the first PDU whose identifier agrees with id. */
  ghost predicate Names(c: Config, id: bv32, q: nat) {
    && q < |c.pdus| && Agree(id, c.pdus[q].canId, c.fdMask)
    && forall j :: 0 <= j < q ==> !Agree(id, c.pdus[j].canId, c.fdMask)
  }

  /** This event confirms a transmission of p, or pretends to. */
  ghost predicate Settles(c: Config, e: Event, p: nat) {
    || (e.EConfirm? && e.p == p)
    || (e.EReceive? && exists q: nat :: Names(c, e.id, q) && c.pdus[q].fake == p)
  }

  /** The driver took a frame of p, and no confirmation was seen since. */
  ghost predicate Owes(c: Config, events: seq<Event>, p: nat) {
    if events == [] then false
    else
      var before, e := events[..|events| - 1], events[|events| - 1];
      || (e.ETransmit? && e.p == p && e.started && e.driverOk)
      || (!Settles(c, e, p) && Owes(c, before, p))
  }

  /** The callbacks of a call: the confirmation that is owed, and then the frame. */
  ghost predicate Due(c: Config, events: seq<Event>, e: Event, calls: seq<Call>) {
    match e
    case EConfirm(_, p) => calls == if p < |c.pdus| && Owes(c, events, p) then [Confirmed(p)] else []
    case EReceive(_, id, f, _) =>
      && ((forall q: nat :: !Names(c, id, q)) ==> calls == [])
      && (forall q: nat :: Names(c, id, q) ==>
            var p := c.pdus[q].fake;
            calls == (if p < |c.pdus| && Owes(c, events, p) then [Confirmed(p)] else []) + [Indicated(q, f)])
    case _ => calls == []
  }

  predicate Elsewhere(c: Config, call: Call) {
    call.p < |c.pdus| && c.pdus[call.p].user == Other
  }

  /** What one callback does to transmit channel i: confirmations of its data PDU, and flow control on its receive PDU. */
  function TxGets(c: Config, i: nat, s: S.State, now: nat, call: Call): S.State
    requires c.Valid() && i < |c.tx|
  {
    if call.p >= |c.pdus| then s
    else match call
      case Confirmed(p) => if c.pdus[p].user == TxData(i) then S.TxConfirmation(c.tx[i], s, now) else s
      case Indicated(q, f) =>
        var u := c.pdus[q].user;
        if u.RxPdu? && u.tx == Some(i) && At(f, u.addr) / 16 == 3 then S.FlowControl(c.tx[i], s, now, f) else s
  }

  function RxGets(c: Config, i: nat, s: R.State, now: nat, env: R.RxEnv, call: Call): R.State
    requires c.Valid() && i < |c.rx| && R.Inv(c.rx[i], s)
  {
    if call.p >= |c.pdus| then s
    else match call
      case Confirmed(p) => if c.pdus[p].user == RxFlow(i) then R.TxConfirmation(s, now) else s
      case Indicated(q, f) =>
        var u := c.pdus[q].user;
        if u.RxPdu? && u.rx == Some(i) && At(f, u.addr) / 16 != 3 && |f| <= MAX_NPDU then R.RxIndication(c.rx[i], s, now, f, env) else s
  }

  /** One callback reaches its owner and nobody else. */
  ghost predicate Reaches(c: Config, s: State, s': State, now: nat, env: R.RxEnv, call: Call)
    requires Inv(c, s)
  {
    && |s'.tx| == |s.tx| && (forall i :: 0 <= i < |c.tx| ==> s'.tx[i] == TxGets(c, i, s.tx[i], now, call))
    && |s'.rx| == |s.rx| && (forall i :: 0 <= i < |c.rx| ==> s'.rx[i] == RxGets(c, i, s.rx[i], now, env, call))
    && s'.calls == s.calls + if Elsewhere(c, call) then [call] else []
  }

  /** The callbacks, one after the other. */
  ghost predicate Reached(c: Config, s: State, s': State, now: nat, env: R.RxEnv, calls: seq<Call>)
    requires Inv(c, s)
    decreases |calls|
  {
    if calls == [] then s'.tx == s.tx && s'.rx == s.rx && s'.calls == s.calls
    else exists mid :: Inv(c, mid) && Reached(c, s, mid, now, env, calls[..|calls| - 1]) && Reaches(c, mid, s', now, env, calls[|calls| - 1])
  }

  // ----- CanIf does exactly that --------------------------------------------------------------------------

  lemma SameAgree(c: Config, a: bv32, b: bv32)
    requires SameId(c, a, b)
    ensures Agree(a, b, c.fdMask)
  {
  }

  lemma AgreeSame(c: Config, a: bv32, b: bv32)
    requires Agree(a, b, c.fdMask)
    ensures SameId(c, a, b)
  {
  }

  lemma SameIdMeans(c: Config, a: bv32, b: bv32)
    ensures SameId(c, a, b) <==> Agree(a, b, c.fdMask)
  {
    hide SameId, Agree;
    if SameId(c, a, b) { SameAgree(c, a, b); }
    if Agree(a, b, c.fdMask) { AgreeSame(c, a, b); }
  }

  lemma NamesFirst(c: Config, id: bv32, q: nat)
    ensures Names(c, id, q) <==> FirstMatch(c, id, 0) == Some(q)
  {
    hide SameId, Agree;
    forall j | 0 <= j < |c.pdus| ensures SameId(c, id, c.pdus[j].canId) <==> Agree(id, c.pdus[j].canId, c.fdMask) {
      SameIdMeans(c, id, c.pdus[j].canId);
    }
  }

  lemma ConfirmReaches(c: Config, s: State, now: nat, env: R.RxEnv, p: nat)
    requires Inv(c, s) && p < |c.pdus|
    ensures Reaches(c, s, Confirm(c, s, now, p), now, env, Confirmed(p))
  {
    hide S.Inv, R.Inv, S.TxConfirmation, R.TxConfirmation;
  }

  lemma IndicateReaches(c: Config, s: State, now: nat, env: R.RxEnv, q: nat, f: R.CanFrame)
    requires Inv(c, s) && q < |c.pdus|
    ensures Reaches(c, s, Indicate(c, s, now, q, f, env), now, env, Indicated(q, f))
  {
    hide S.Inv, R.Inv, S.FlowControl, R.RxIndication;
  }

  /** The pending flags are the confirmations that are owed. */
  ghost predicate Tracks(c: Config, s: State, events: seq<Event>) {
    |s.pending| == |c.pdus| && forall p :: 0 <= p < |c.pdus| ==> (s.pending[p] <==> Owes(c, events, p))
  }

  lemma TracksStep(c: Config, s: State, events: seq<Event>, e: Event)
    requires Inv(c, s) && Tracks(c, s, events)
    ensures Tracks(c, Step(c, s, e), events + [e])
  {
    assert (events + [e])[..|events|] == events;
    hide S.Inv, R.Inv, Confirm, Indicate;
    match e
    case ETransmit(p, started, driverOk) =>
    case EConfirm(now, p) => Settled(c, s, now, p);
    case EReceive(now, id, f, env) =>
      forall q: nat ensures Names(c, id, q) <==> FirstMatch(c, id, 0) == Some(q) { NamesFirst(c, id, q); }
      hide FirstMatch, Names;
      if FirstMatch(c, id, 0).Some? {
        var p := c.pdus[FirstMatch(c, id, 0).value].fake;
        Settled(c, s, now, p);
        ConfirmationKeeps(c, s, now, p);
        IndicateKeeps(c, TxConfirmation(c, s, now, p), now, FirstMatch(c, id, 0).value, f, env);
        assert forall p' :: Settles(c, e, p') <==> p' == p;
      }
    case ETransport(_, _) =>
  }

  /** A confirmation clears its own flag and no other. */
  lemma Settled(c: Config, s: State, now: nat, p: nat)
    requires Inv(c, s)
    ensures var s' := TxConfirmation(c, s, now, p);
            |s'.pending| == |c.pdus| && forall j :: 0 <= j < |c.pdus| ==> (s'.pending[j] <==> j != p && s.pending[j])
  {
    hide S.Inv, R.Inv;
  }

  lemma {:induction false} RunTracks(c: Config, s: State, events: seq<Event>)
    requires Inv(c, s) && forall p :: 0 <= p < |c.pdus| ==> !s.pending[p]
    ensures Tracks(c, Run(c, s, events), events)
  {
    hide Inv, Step, Tracks;
    if events == [] {
      NothingOwed(c, s);
    } else {
      var before := events[..|events| - 1];
      RunTracks(c, s, before);
      TracksStep(c, Run(c, s, before), before, events[|events| - 1]);
      assert before + [events[|events| - 1]] == events;
    }
  }

  lemma NothingOwed(c: Config, s: State)
    requires Inv(c, s) && forall p :: 0 <= p < |c.pdus| ==> !s.pending[p]
    ensures Tracks(c, s, [])
  {
    hide S.Inv, R.Inv;
  }

  function Time(e: Event): nat {
    if e.EConfirm? || e.EReceive? then e.now else 0
  }

  function Answers(e: Event): R.RxEnv {
    if e.EReceive? then e.env else R.RxEnv(R.Reject, false)
  }

  lemma ReachedNobody(c: Config, s: State, s': State, now: nat, env: R.RxEnv)
    requires Inv(c, s) && s'.tx == s.tx && s'.rx == s.rx && s'.calls == s.calls
    ensures Reached(c, s, s', now, env, [])
  {
  }

  lemma ReachedNext(c: Config, s: State, mid: State, s': State, now: nat, env: R.RxEnv, calls: seq<Call>, call: Call)
    requires Inv(c, s) && Inv(c, mid) && Reached(c, s, mid, now, env, calls) && Reaches(c, mid, s', now, env, call)
    ensures Reached(c, s, s', now, env, calls + [call])
  {
    hide Inv, Reaches;
    assert (calls + [call])[..|calls|] == calls;
  }

  /** A confirmation is passed on if and only if it is owed. */
  lemma ConfirmationReached(c: Config, s: State, now: nat, env: R.RxEnv, p: nat) returns (calls: seq<Call>)
    requires Inv(c, s)
    ensures calls == if p < |c.pdus| && s.pending[p] then [Confirmed(p)] else []
    ensures Inv(c, TxConfirmation(c, s, now, p)) && Reached(c, s, TxConfirmation(c, s, now, p), now, env, calls)
  {
    hide S.Inv, R.Inv, Confirm, Reaches, Reached;
    ConfirmationKeeps(c, s, now, p);
    ReachedNobody(c, s, s, now, env);
    calls := [];
    if p < |c.pdus| && s.pending[p] {
      var mid := s.(pending := s.pending[p := false]);
      ReachedNobody(c, s, mid, now, env);
      ConfirmReaches(c, mid, now, env, p);
      ReachedNext(c, s, mid, Confirm(c, mid, now, p), now, env, [], Confirmed(p));
      calls := [] + [Confirmed(p)];
    }
  }

  /**
   * In every run, with the transport layer doing anything in between: a confirmation from the driver is passed on if and
   * only if a frame of this PDU was taken by the driver and neither confirmed nor faked since; a received frame fakes the
   * confirmation that is owed to its partner, then goes to the first PDU that its identifier names, and nowhere else.
   */
  lemma CallsExactly(c: Config, s: State, events: seq<Event>, e: Event) returns (calls: seq<Call>)
    requires Inv(c, s) && (forall p :: 0 <= p < |c.pdus| ==> !s.pending[p]) && !e.ETransport?
    ensures Due(c, events, e, calls)
    ensures Reached(c, Run(c, s, events), Run(c, s, events + [e]), Time(e), Answers(e), calls)
  {
    hide Inv, Reached, Confirm, Indicate, TxConfirmation, Owes, FirstMatch, Names;
    RunTracks(c, s, events);
    assert (events + [e])[..|events|] == events;
    var x := Run(c, s, events);
    ReachedNobody(c, x, Run(c, s, events), Time(e), Answers(e));
    match e
    case ETransmit(p, started, driverOk) =>
      calls := [];
      ReachedNobody(c, x, Transmit(x, p, started, driverOk), Time(e), Answers(e));
    case EConfirm(now, p) =>
      calls := ConfirmationReached(c, x, now, Answers(e), p);
    case EReceive(now, id, f, env) =>
      forall q: nat ensures Names(c, id, q) <==> FirstMatch(c, id, 0) == Some(q) { NamesFirst(c, id, q); }
      if FirstMatch(c, id, 0).None? {
        calls := [];
      } else {
        var q := FirstMatch(c, id, 0).value;
        var p := c.pdus[q].fake;
        var first := ConfirmationReached(c, x, now, env, p);
        var mid := TxConfirmation(c, x, now, p);
        IndicateReaches(c, mid, now, env, q, f);
        ReachedNext(c, x, mid, Indicate(c, mid, now, q, f, env), now, env, first, Indicated(q, f));
        calls := first + [Indicated(q, f)];
      }
  }
}
