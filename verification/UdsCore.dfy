/** The diagnostic server core: one request at a time, response-pending repetition, and the session timer. */
module UdsCore {
  import opened Bytes
  import opened ElTime

  const S3_MS: nat := 5000
  const RCRRP_INTERVAL_MS: nat := 1000
  const RCRRP_LIMIT_MS: nat := 10 * RCRRP_INTERVAL_MS
  const RCRRP_REPEAT_MS: nat := 3 * RCRRP_INTERVAL_MS

  const SID_DSC: byte := 0x10
  const SID_ER: byte := 0x11
  const SID_SA: byte := 0x27

  const GENERAL_REJECT: byte := 0x10
  const SERVICE_NOT_SUPPORTED: byte := 0x11
  const INCORRECT_LENGTH: byte := 0x13
  const NOT_IN_SESSION: byte := 0x7F

  /** What a service handler or pending callback answers. */
  datatype Code = Positive | ResponsePending | Negative(nrc: byte)

  /** One row of the service table; handler and pending say whether the pointers are set. */
  datatype Service = Service(sid: byte, sessions: set<nat>, minLength: nat, handler: bool, pending: bool)

  type Table = t: seq<Service> | |t| < 255

  /** What the server does, in order. */
  datatype Note =
    | Accepted(sid: byte)
    | Malformed
    | Final(sid: byte, code: Code, suppressed: bool)
    | Pending(sid: byte)
    | ConfirmTimeout
    | McuReset
    | SessionReset
    | Abandoned

  /** The control block, the clock, and the history of what was done. */
  datatype State = State(
    busy: bool, txConfirm: bool, index: Option<nat>, suppress: bool, rcrrp: Timer, limit: Timer, s3: Timer,
    now: nat, log: seq<Note>)

  function Init(): State {
    State(false, false, None, false, Idle, Idle, Idle, 0, [])
  }

  function Record(s: State, n: Note): State {
    s.(log := s.log + [n])
  }

  /** Uds_CoreSetIdle; the limit timer is left alone. */
  function SetIdle(s: State): State {
    s.(busy := false, txConfirm := false, index := None, suppress := false, rcrrp := Idle)
  }

  function StartS3(s: State): State {
    s.(s3 := Running(s.now, S3_MS))
  }

  // ----- Responses --------------------------------------------------------------------------------------

  function SendNegative(s: State, sid: byte, nrc: byte): State {
    SetIdle(Record(s, Final(sid, Negative(nrc), false)))
  }

  /** Uds_CoreTxConfirmation and Uds_CoreTxAborted */
  function TxConfirmation(s: State): State {
    if s.index.Some? then s.(txConfirm := true) else StartS3(s)
  }

  /** A suppressed response fakes its own confirmation. */
  function SendPositive(s: State, sid: byte): State {
    var s1 := Record(s, Final(sid, Positive, s.suppress));
    SetIdle(if s.suppress then TxConfirmation(s1) else s1)
  }

  function SendPending(s: State, sid: byte): State {
    Record(s, Pending(sid)).(rcrrp := Running(s.now, RCRRP_REPEAT_MS), suppress := false, txConfirm := false)
  }

  /** UdsResponse_function: the first answer of a handler. */
  function Respond(t: Table, s: State, i: nat, code: Code): State
    requires i < |t|
  {
    match code
    case Positive => SendPositive(s, t[i].sid)
    case ResponsePending =>
      var s1 := s.(limit := Running(s.now, RCRRP_LIMIT_MS));
      if t[i].pending then SendPending(s1.(index := Some(i)), t[i].sid)
      else SendNegative(s1, t[i].sid, GENERAL_REJECT)
    case Negative(nrc) => SendNegative(s, t[i].sid, nrc)
  }

  // ----- Entry points -----------------------------------------------------------------------------------

  /** Answer of the handler: its code, and whether the request asked to suppress a positive response. */
  datatype Answer = Answer(code: Code, suppress: bool)

  /** The first row from k on with this service id. */
  function Find(t: Table, sid: byte, k: nat): (i: nat)
    requires k <= |t|
    ensures k <= i <= |t| && (i < |t| ==> t[i].sid == sid) && forall j :: k <= j < i ==> t[j].sid != sid
    decreases |t| - k
  {
    if k == |t| || t[k].sid == sid then k else Find(t, sid, k + 1)
  }

  /** A request that is taken up: every path but the pending one ends with a final response. */
  function Dispatch(t: Table, s: State, req: bytes, session: nat, a: Answer): State
    requires |req| > 0
  {
    var sid, i := req[0], Find(t, req[0], 0);
    if i == |t| then SendNegative(s, sid, SERVICE_NOT_SUPPORTED)
    else if !t[i].handler then SendNegative(s, sid, GENERAL_REJECT)
    else if session !in t[i].sessions then SendNegative(s, sid, NOT_IN_SESSION)
    else if |req| < t[i].minLength then SendNegative(s, sid, INCORRECT_LENGTH)
    else Respond(t, s.(busy := true, suppress := s.suppress || a.suppress), i, a.code)
  }

  /** Uds_ApiDataIndication; None stands for a null pointer. */
  function DataIndication(t: Table, s: State, req: Option<bytes>, session: nat, a: Answer): State {
    var s1 := StartS3(s);
    if req.None? || |req.value| == 0 then SendNegative(Record(s1, Malformed), 0, GENERAL_REJECT)
    else if s1.busy then s1
    else Dispatch(t, Record(s1, Accepted(req.value[0])), req.value, session, a)
  }

  /** rbUds_ApiRxStarted */
  function RxStarted(s: State): State {
    match s.s3
    case Stopped => s
    case Idle => s.(s3 := Stopped)
    case Running(_, _) => s.(s3 := Idle)
  }

  /** A service that the server answers with a reset when its time limit is over. */
  predicate ResetsOnLimit(sid: byte) {
    sid == SID_SA || sid == SID_DSC || sid == SID_ER
  }

  /** Uds_CoreResponsePendingTask */
  function PendingTask(s: State, sid: byte, code: Code): State {
    match code
    case Positive => SendPositive(s, sid)
    case ResponsePending => if Elapsed(s.rcrrp, s.now) then SendPending(StartS3(s), sid) else s
    case Negative(nrc) => SendNegative(s, sid, nrc)
  }

  /** Uds_CoreResponsePendingSubtask with the answer of the pending callback. */
  function PendingSubtask(t: Table, s: State, code: Code): State {
    if s.index.None? || s.index.value >= |t| then s
    else
      var row := t[s.index.value];
      if !row.pending then SetIdle(Record(s, Abandoned))
      else if s.txConfirm then
        if !Elapsed(s.limit, s.now) then PendingTask(s, row.sid, code)
        else if ResetsOnLimit(row.sid) then Record(Init().(now := s.now, log := s.log), McuReset)
        else PendingTask(s, row.sid, Negative(GENERAL_REJECT))
      else if Elapsed(s.rcrrp, s.now) then SetIdle(Record(s, ConfirmTimeout))
      else s
  }

  /** Uds_CoreS3TimerSubtask; a timeout matters only outside the default session. */
  function S3Subtask(s: State, defaultSession: bool): State {
    if Elapsed(s.s3, s.now) && !defaultSession then SetIdle(Record(s, SessionReset)).(s3 := Idle) else s
  }

  /** Uds_CoreCyclic */
  function Cyclic(t: Table, s: State, code: Code, defaultSession: bool): State {
    S3Subtask(PendingSubtask(t, s, code), defaultSession)
  }

  // ----- Reading the history ----------------------------------------------------------------------------

  /** Where an observer of the history stands: between requests, or inside one with n pending responses. */
  datatype Phase = Quiet | Taken | Refusing | Open(n: nat) | Broken

  const MAX_PENDING: nat := 4

  /**
   * The protocol that the history must follow: a request is accepted, answered by at most four pending
   * responses and closed exactly once; a final response that follows a pending one is not suppressed;
   * the session timer interferes only between requests. A malformed request ends an open one unanswered.
   */
  function Follow(p: Phase, n: Note): Phase {
    match (p, n)
    case (Quiet, Accepted(_)) => Taken
    case (Quiet, Malformed) => Refusing
    case (Quiet, SessionReset) => Quiet
    case (Taken, Final(_, _, _)) => Quiet
    case (Taken, Pending(_)) => Open(1)
    case (Refusing, Final(_, _, _)) => Quiet
    case (Open(k), Pending(_)) => if k < MAX_PENDING then Open(k + 1) else Broken
    case (Open(_), Final(_, _, suppressed)) => if suppressed then Broken else Quiet
    case (Open(_), Malformed) => Refusing
    case (Open(_), ConfirmTimeout) => Quiet
    case (Open(_), McuReset) => Quiet
    case (_, _) => Broken
  }

  function Scan(log: seq<Note>): Phase {
    if log == [] then Quiet else Follow(Scan(log[..|log| - 1]), log[|log| - 1])
  }

  lemma ScanStep(log: seq<Note>, n: Note)
    ensures Scan(log + [n]) == Follow(Scan(log), n)
  {
    assert (log + [n])[..|log|] == log;
  }

  // ----- Invariant --------------------------------------------------------------------------------------

  /** The timers of a pending request: the k-th pending response was due no earlier than the schedule allows. */
  ghost predicate Schedule(rcrrp: Timer, limit: Timer, s3: Timer, now: nat, k: nat) {
    && rcrrp.Running? && rcrrp.duration == RCRRP_REPEAT_MS && limit.Running? && limit.duration == RCRRP_LIMIT_MS
    && 1 <= k && limit.start + RCRRP_REPEAT_MS * (k - 1) <= rcrrp.start <= now
    && rcrrp.start < limit.start + RCRRP_LIMIT_MS
    && (s3.Running? ==> s3.duration == S3_MS && rcrrp.start <= s3.start)
  }

  ghost predicate Inv(t: Table, s: State) {
    && (s.busy <==> s.index.Some?) && !s.suppress
    && if s.index.Some? then
         && s.index.value < |t| && t[s.index.value].pending && Scan(s.log).Open?
         && Schedule(s.rcrrp, s.limit, s.s3, s.now, Scan(s.log).n)
       else Scan(s.log) == Quiet
  }

  lemma DispatchKeeps(t: Table, s: State, req: bytes, session: nat, a: Answer)
    requires |req| > 0 && !s.busy && s.index.None? && !s.suppress && Scan(s.log) == Taken
    requires s.s3 == Running(s.now, S3_MS)
    ensures Inv(t, Dispatch(t, s, req, session, a))
  {
    hide Scan, Find;
    var s' := Dispatch(t, s, req, session, a);
    var n := s'.log[|s.log|];
    assert s'.log == s.log + [n];
    ScanStep(s.log, n);
  }

  lemma IndicationKeeps(t: Table, s: State, req: Option<bytes>, session: nat, a: Answer)
    requires Inv(t, s)
    ensures Inv(t, DataIndication(t, s, req, session, a))
  {
    hide Scan;
    var s1 := StartS3(s);
    if req.None? || |req.value| == 0 {
      ScanStep(s.log, Malformed);
      ScanStep(s.log + [Malformed], Final(0, Negative(GENERAL_REJECT), false));
    } else if !s.busy {
      ScanStep(s.log, Accepted(req.value[0]));
      DispatchKeeps(t, Record(s1, Accepted(req.value[0])), req.value, session, a);
      hide Dispatch;
    }
  }

  lemma PendingKeeps(t: Table, s: State, code: Code)
    requires Inv(t, s)
    ensures Inv(t, PendingSubtask(t, s, code))
    ensures var s' := PendingSubtask(t, s, code); s'.index.Some? ==> !Elapsed(s'.rcrrp, s'.now)
  {
    hide Scan;
    var s' := PendingSubtask(t, s, code);
    if |s'.log| > |s.log| {
      var n := s'.log[|s.log|];
      assert s'.log == s.log + [n];
      ScanStep(s.log, n);
    }
  }

  /** The session timer cannot elapse while a pending response is not yet due. */
  lemma S3Keeps(t: Table, s: State, defaultSession: bool)
    requires Inv(t, s) && (s.index.Some? ==> !Elapsed(s.rcrrp, s.now))
    ensures Inv(t, S3Subtask(s, defaultSession)) && (s.index.Some? ==> S3Subtask(s, defaultSession) == s)
  {
    hide Scan;
    ScanStep(s.log, SessionReset);
  }

  // ----- Runs -------------------------------------------------------------------------------------------

  /** Calls into the server, each some time after the one before. */
  datatype Event =
    | ERequest(dt: nat, req: Option<bytes>, session: nat, answer: Answer)
    | ETxConfirmation(dt: nat)
    | ERxStarted(dt: nat)
    | ERxAborted(dt: nat)
    | ECyclic(dt: nat, code: Code, defaultSession: bool)

  function Wait(s: State, dt: nat): State {
    s.(now := s.now + dt)
  }

  function Step(t: Table, s: State, e: Event): State {
    match e
    case ERequest(dt, req, session, answer) => DataIndication(t, Wait(s, dt), req, session, answer)
    case ETxConfirmation(dt) => TxConfirmation(Wait(s, dt))
    case ERxStarted(dt) => RxStarted(Wait(s, dt))
    case ERxAborted(dt) => StartS3(Wait(s, dt))
    case ECyclic(dt, code, defaultSession) => Cyclic(t, Wait(s, dt), code, defaultSession)
  }

  lemma StepKeeps(t: Table, s: State, e: Event)
    requires Inv(t, s)
    ensures Inv(t, Step(t, s, e))
  {
    hide Scan;
    match e
    case ERequest(dt, req, session, answer) =>
      IndicationKeeps(t, Wait(s, dt), req, session, answer);
    case ETxConfirmation(dt) =>
    case ERxStarted(dt) =>
    case ERxAborted(dt) =>
    case ECyclic(dt, code, defaultSession) =>
      PendingKeeps(t, Wait(s, dt), code);
      S3Keeps(t, PendingSubtask(t, Wait(s, dt), code), defaultSession);
  }

  /** The server after any calls, each some time after the one before. */
  function Run(t: Table, events: seq<Event>): State {
    if events == [] then Init() else Step(t, Run(t, events[..|events| - 1]), events[|events| - 1])
  }

  lemma {:induction false} RunKeeps(t: Table, events: seq<Event>)
    ensures Inv(t, Run(t, events))
  {
    hide Inv, Step;
    if events == [] {
      InitKeeps(t);
    } else {
      RunKeeps(t, events[..|events| - 1]);
      StepKeeps(t, Run(t, events[..|events| - 1]), events[|events| - 1]);
    }
  }

  lemma InitKeeps(t: Table)
    ensures Inv(t, Init())
  {
  }

  // ----- Results ----------------------------------------------------------------------------------------

  /**
   * In every run, whatever the gaps between calls, the history follows the protocol: in particular at most four
   * pending responses per request, no suppressed final response after one, and no session reset while a service
   * is pending.
   */
  lemma HistoryFollowsProtocol(t: Table, events: seq<Event>)
    ensures var s := Run(t, events);
            if s.index.Some? then Scan(s.log).Open? && 1 <= Scan(s.log).n <= MAX_PENDING else Scan(s.log) == Quiet
  {
    RunKeeps(t, events);
    ScanBound(Run(t, events).log);
  }

  lemma ScanBound(log: seq<Note>)
    ensures Scan(log).Open? ==> 1 <= Scan(log).n <= MAX_PENDING
  {
  }

  /** Requests that ask for an answer. */
  function Opened(log: seq<Note>): nat {
    if log == [] then 0
    else Opened(log[..|log| - 1]) + match log[|log| - 1] case Accepted(_) => 1 case Malformed => 1 case _ => 0
  }

  /** Final responses, confirmation timeouts and resets. */
  function Closed(log: seq<Note>): nat {
    if log == [] then 0
    else Closed(log[..|log| - 1])
         + match log[|log| - 1] case Final(_, _, _) => 1 case ConfirmTimeout => 1 case McuReset => 1 case _ => 0
  }

  /** Open requests that a malformed one cut off. */
  function Lost(log: seq<Note>): nat {
    if log == [] then 0
    else Lost(log[..|log| - 1]) + if Scan(log[..|log| - 1]).Open? && log[|log| - 1] == Malformed then 1 else 0
  }

  lemma {:induction false} ScanBalances(log: seq<Note>)
    ensures Scan(log) != Broken ==> Opened(log) == Closed(log) + Lost(log) + if Scan(log) == Quiet then 0 else 1
  {
    if log != [] { ScanBalances(log[..|log| - 1]); }
  }

  /** A null or empty request that meets a pending service. */
  predicate Intrudes(s: State, e: Event) {
    e.ERequest? && (e.req.None? || |e.req.value| == 0) && s.index.Some?
  }

  ghost predicate Undisturbed(t: Table, events: seq<Event>) {
    events == []
    || (Undisturbed(t, events[..|events| - 1]) && !Intrudes(Run(t, events[..|events| - 1]), events[|events| - 1]))
  }

  lemma LostStep(log: seq<Note>, n: Note)
    ensures Lost(log + [n]) == Lost(log) + if Scan(log).Open? && n == Malformed then 1 else 0
  {
    assert (log + [n])[..|log|] == log;
  }

  lemma RespondLog(t: Table, s: State, i: nat, code: Code)
    requires i < |t|
    ensures var log := Respond(t, s, i, code).log;
            |log| == |s.log| + 1 && log == s.log + [log[|s.log|]] && (log[|s.log|].Final? || (log[|s.log|].Pending? && t[i].pending))
            && log[|s.log|].sid == t[i].sid
  {
  }

  /** Dispatching adds one entry: a final response or a pending one, and for an unknown service its refusal. */
  lemma DispatchLog(t: Table, s: State, req: bytes, session: nat, a: Answer) returns (n: Note)
    requires |req| > 0
    ensures Dispatch(t, s, req, session, a).log == s.log + [n] && Answers(t, req[0], n)
  {
    hide Find, Respond;
    var i := Find(t, req[0], 0);
    if i < |t| { RespondLog(t, s.(busy := true, suppress := s.suppress || a.suppress), i, a.code); }
    n := Dispatch(t, s, req, session, a).log[|s.log|];
  }

  lemma LostByIndication(t: Table, s: State, req: Option<bytes>, session: nat, a: Answer)
    requires Inv(t, s)
    ensures Lost(DataIndication(t, s, req, session, a).log)
         == Lost(s.log) + if (req.None? || |req.value| == 0) && s.index.Some? then 1 else 0
  {
    hide Scan, Lost, Dispatch;
    if req.None? || |req.value| == 0 {
      LostStep(s.log, Malformed);
      LostStep(s.log + [Malformed], Final(0, Negative(GENERAL_REJECT), false));
    } else if !s.busy {
      var s1 := Record(StartS3(s), Accepted(req.value[0]));
      var n := DispatchLog(t, s1, req.value, session, a);
      LostStep(s.log, Accepted(req.value[0]));
      LostStep(s1.log, n);
    }
  }

  /** The pending subtask adds at most one entry, and it is no request. */
  lemma PendingLog(t: Table, s: State, code: Code)
    ensures var log := PendingSubtask(t, s, code).log;
            || log == s.log
            || (|log| == |s.log| + 1 && log == s.log + [log[|s.log|]] && log[|s.log|] != Malformed && !log[|s.log|].Accepted?)
  {
  }

  lemma LostByCyclic(t: Table, s: State, code: Code, defaultSession: bool)
    ensures Lost(Cyclic(t, s, code, defaultSession).log) == Lost(s.log)
  {
    hide Scan, Lost, PendingSubtask;
    PendingLog(t, s, code);
    var s1 := PendingSubtask(t, s, code);
    if s1.log != s.log { LostStep(s.log, s1.log[|s.log|]); }
    LostStep(s1.log, SessionReset);
  }

  lemma {:induction false} LostExactly(t: Table, events: seq<Event>)
    ensures Lost(Run(t, events).log) == 0 <==> Undisturbed(t, events)
  {
    hide Scan, Lost, Inv, Cyclic, DataIndication;
    if events == [] {
      assert Lost([]) == 0 by { LostEmpty(); }
    } else {
      var before, e := events[..|events| - 1], events[|events| - 1];
      LostExactly(t, before);
      match e
      case ERequest(dt, req, session, answer) =>
        RunKeeps(t, before);
        WaitKeeps(t, Run(t, before), dt);
        LostByIndication(t, Wait(Run(t, before), dt), req, session, answer);
      case ECyclic(dt, code, defaultSession) => LostByCyclic(t, Wait(Run(t, before), dt), code, defaultSession);
      case _ =>
    }
  }

  lemma LostEmpty()
    ensures Lost([]) == 0
  {
  }

  lemma WaitKeeps(t: Table, s: State, dt: nat)
    requires Inv(t, s)
    ensures Inv(t, Wait(s, dt))
  {
  }

  /**
   * Response conservation: in every run the requests are accounted for by final responses, confirmation timeouts,
   * resets and the pending one, if and only if no null or empty request ever met a pending service.
   */
  lemma ResponsesConservedExactly(t: Table, events: seq<Event>)
    ensures var s := Run(t, events);
            (Opened(s.log) == Closed(s.log) + if s.index.Some? then 1 else 0) <==> Undisturbed(t, events)
  {
    HistoryFollowsProtocol(t, events);
    ScanBalances(Run(t, events).log);
    LostExactly(t, events);
  }

  // ----- What is taken up, and what is refused ------------------------------------------------------------

  /** A well-formed request that comes when the history shows every earlier one as closed. */
  predicate Admits(log: seq<Note>, e: Event) {
    e.ERequest? && e.req.Some? && |e.req.value| > 0 && Scan(log) == Quiet
  }

  /** The service ids of such requests along a run. */
  function Admitted(t: Table, events: seq<Event>): seq<byte> {
    if events == [] then []
    else
      var before, e := events[..|events| - 1], events[|events| - 1];
      Admitted(t, before) + if Admits(Run(t, before).log, e) then [e.req.value[0]] else []
  }

  /** The service ids that the history shows as accepted. */
  function AcceptedIds(log: seq<Note>): seq<byte> {
    if log == [] then []
    else AcceptedIds(log[..|log| - 1]) + match log[|log| - 1] case Accepted(sid) => [sid] case _ => []
  }

  /** The response n belongs to the request for sid; only a service of the table answers otherwise than with not supported. */
  ghost predicate Answers(t: Table, sid: byte, n: Note) {
    && (n.Final? || n.Pending?) && n.sid == sid
    && ((forall i :: 0 <= i < |t| ==> t[i].sid != sid) ==> n == Final(sid, Negative(SERVICE_NOT_SUPPORTED), false))
    && (n.Pending? ==> exists i :: 0 <= i < |t| && t[i].sid == sid && t[i].pending)
  }

  /** Right behind its acceptance, every request has its own answer. */
  ghost predicate AnsweredAtOnce(t: Table, log: seq<Note>) {
    forall j :: 0 <= j < |log| && log[j].Accepted? ==> j + 1 < |log| && Answers(t, log[j].sid, log[j + 1])
  }

  lemma AcceptedStep(log: seq<Note>, n: Note)
    ensures AcceptedIds(log + [n]) == AcceptedIds(log) + match n case Accepted(sid) => [sid] case _ => []
  {
    assert (log + [n])[..|log|] == log;
  }

  lemma RefusedGrows(t: Table, log: seq<Note>, n: Note)
    requires AnsweredAtOnce(t, log) && !n.Accepted?
    ensures AnsweredAtOnce(t, log + [n])
  {
    var all := log + [n];
    assert forall j :: 0 <= j < |log| ==> all[j] == log[j];
  }

  lemma RefusedExchange(t: Table, log: seq<Note>, sid: byte, n: Note)
    requires AnsweredAtOnce(t, log) && !n.Accepted?
    requires Answers(t, sid, n)
    ensures AnsweredAtOnce(t, log + [Accepted(sid)] + [n])
  {
    var all := log + [Accepted(sid)] + [n];
    assert forall j :: 0 <= j < |log| ==> all[j] == log[j];
    assert all[|log|] == Accepted(sid) && all[|log| + 1] == n;
  }

  lemma IndicationTakes(t: Table, s: State, req: Option<bytes>, session: nat, a: Answer)
    requires Inv(t, s) && AnsweredAtOnce(t, s.log)
    ensures var log := DataIndication(t, s, req, session, a).log;
            && AnsweredAtOnce(t, log)
            && AcceptedIds(log) == AcceptedIds(s.log) + if req.Some? && |req.value| > 0 && Scan(s.log) == Quiet then [req.value[0]] else []
  {
    hide Scan, Dispatch, AnsweredAtOnce, AcceptedIds, Find;
    if req.None? || |req.value| == 0 {
      var n := Final(0, Negative(GENERAL_REJECT), false);
      AcceptedStep(s.log, Malformed);
      AcceptedStep(s.log + [Malformed], n);
      RefusedGrows(t, s.log, Malformed);
      RefusedGrows(t, s.log + [Malformed], n);
    } else if !s.busy {
      var sid := req.value[0];
      var s1 := Record(StartS3(s), Accepted(sid));
      var n := DispatchLog(t, s1, req.value, session, a);
      AcceptedStep(s.log, Accepted(sid));
      AcceptedStep(s1.log, n);
      RefusedExchange(t, s.log, sid, n);
    }
  }

  lemma CyclicTakes(t: Table, s: State, code: Code, defaultSession: bool)
    requires AnsweredAtOnce(t, s.log)
    ensures var log := Cyclic(t, s, code, defaultSession).log; AnsweredAtOnce(t, log) && AcceptedIds(log) == AcceptedIds(s.log)
  {
    hide AnsweredAtOnce, AcceptedIds, PendingSubtask;
    PendingLog(t, s, code);
    var s1 := PendingSubtask(t, s, code);
    if s1.log != s.log {
      AcceptedStep(s.log, s1.log[|s.log|]);
      RefusedGrows(t, s.log, s1.log[|s.log|]);
    }
    AcceptedStep(s1.log, SessionReset);
    RefusedGrows(t, s1.log, SessionReset);
  }

  /**
   * In every run the server takes up exactly the well-formed requests that come when the history shows every earlier
   * one as closed, in order, and answers each one before anything else happens: one for an unknown service as not
   * supported, and with response pending only a service that can be pending.
   */
  lemma {:induction false} TakenUpExactly(t: Table, events: seq<Event>)
    ensures AcceptedIds(Run(t, events).log) == Admitted(t, events) && AnsweredAtOnce(t, Run(t, events).log)
  {
    hide Inv, Cyclic, DataIndication, AnsweredAtOnce, AcceptedIds;
    if events == [] {
      NoneTaken(t);
    } else {
      var before, e := events[..|events| - 1], events[|events| - 1];
      TakenUpExactly(t, before);
      match e
      case ERequest(dt, req, session, answer) =>
        RunKeeps(t, before);
        WaitKeeps(t, Run(t, before), dt);
        IndicationTakes(t, Wait(Run(t, before), dt), req, session, answer);
      case ECyclic(dt, code, defaultSession) => CyclicTakes(t, Wait(Run(t, before), dt), code, defaultSession);
      case _ =>
    }
  }

  lemma NoneTaken(t: Table)
    ensures AcceptedIds([]) == [] && AnsweredAtOnce(t, [])
  {
  }
}
