/**
 * What the diagnostic server does, read off nothing but the calls, their times and its earlier answers: the first answer
 * to each request, the schedule of pending responses, and the session timer.
 */
module UdsTimeline {
  import opened Bytes
  import opened ElTime
  import opened UdsCore

  /** A call, when it was made, and what the server did in it. */
  datatype Moment = Moment(at: nat, e: Event, notes: seq<Note>)

  /** The calls of a run with what they led to. */
  function Timeline(t: Table, events: seq<Event>): seq<Moment> {
    if events == [] then []
    else
      var before := events[..|events| - 1];
      Timeline(t, before) + [Moment(Time(events), events[|events| - 1], New(Run(t, before).log, Run(t, events).log))]
  }

  function Time(events: seq<Event>): nat {
    if events == [] then 0 else Time(events[..|events| - 1]) + events[|events| - 1].dt
  }

  function New(a: seq<Note>, b: seq<Note>): seq<Note> {
    if |a| <= |b| then b[|a|..] else []
  }

  // ----- The observer -------------------------------------------------------------------------------------

  /** A request under way: its service, when its first and its latest pending response went out, and if that is confirmed. */
  datatype Pursuit = Pursuit(sid: byte, first: nat, last: nat, confirmed: bool)

  /** The session timer: not set, held while a request arrives, or running since some time. */
  datatype Session = Unset | Held | Since(at: nat)

  datatype Seen = Seen(open: Option<Pursuit>, session: Session)

  /** What a call and its notes tell. */
  function Follow(o: Seen, m: Moment): Seen {
    match m.e
    case ERequest(_, _, _, _) =>
      Seen(if m.notes == [] then o.open
           else match m.notes[|m.notes| - 1]
             case Pending(sid) => Some(Pursuit(sid, m.at, m.at, false))
             case _ => None,
           Since(m.at))
    case ETxConfirmation(_) =>
      if o.open.Some? then o.(open := Some(o.open.value.(confirmed := true))) else o.(session := Since(m.at))
    case ERxStarted(_) => o.(session := match o.session case Since(_) => Unset case _ => Held)
    case ERxAborted(_) => o.(session := Since(m.at))
    case ECyclic(_, _, _) =>
      if m.notes == [] then o
      else match m.notes[|m.notes| - 1]
        case Pending(sid) =>
          if o.open.None? then o
          else Seen(Some(o.open.value.(last := m.at, confirmed := false)), Since(m.at))
        case McuReset => Seen(None, Unset)
        case SessionReset => Seen(None, Unset)
        case _ => o.(open := None)
  }

  function Watch(tl: seq<Moment>): Seen {
    if tl == [] then Seen(None, Unset) else Follow(Watch(tl[..|tl| - 1]), tl[|tl| - 1])
  }

  // ----- What is due --------------------------------------------------------------------------------------

  /** The row that serves this id: the first one that has it. */
  predicate Serves(t: Table, sid: byte, i: nat) {
    i < |t| && t[i].sid == sid && forall j :: 0 <= j < i ==> t[j].sid != sid
  }

  /** A refusal, or the final answer of a handler. */
  function Refusal(sid: byte, nrc: byte): Note {
    Final(sid, Negative(nrc), false)
  }

  /** n is the first answer to this request, in this session, when the handler answers a. */
  ghost predicate FirstAnswer(t: Table, req: bytes, session: nat, a: Answer, n: Note)
    requires |req| > 0
  {
    var sid := req[0];
    && ((forall i :: 0 <= i < |t| ==> t[i].sid != sid) ==> n == Refusal(sid, SERVICE_NOT_SUPPORTED))
    && forall i: nat :: Serves(t, sid, i) ==> RowAnswers(t[i], req, session, a, n)
  }

  /** Missing handler, forbidden session and short request are refused in this order; then the handler decides. */
  predicate RowAnswers(row: Service, req: bytes, session: nat, a: Answer, n: Note)
    requires |req| > 0
  {
    && (!row.handler ==> n == Refusal(req[0], GENERAL_REJECT))
    && (row.handler && session !in row.sessions ==> n == Refusal(req[0], NOT_IN_SESSION))
    && (row.handler && session in row.sessions && |req| < row.minLength ==> n == Refusal(req[0], INCORRECT_LENGTH))
    && (row.handler && session in row.sessions && |req| >= row.minLength ==>
          match a.code
          case Positive => n == Final(req[0], Positive, a.suppress)
          case Negative(nrc) => n == Refusal(req[0], nrc)
          case ResponsePending => n == if row.pending then Pending(req[0]) else Refusal(req[0], GENERAL_REJECT))
  }

  /** What is due for a request under way when its callback answers code. */
  function PendingNotes(open: Pursuit, at: nat, code: Code): seq<Note> {
    if !open.confirmed then (if at >= open.last + RCRRP_REPEAT_MS then [ConfirmTimeout] else [])
    else if at >= open.first + RCRRP_LIMIT_MS then
      if open.sid in {SID_SA, SID_DSC, SID_ER} then [McuReset] else [Refusal(open.sid, GENERAL_REJECT)]
    else match code
      case Positive => [Final(open.sid, Positive, false)]
      case Negative(nrc) => [Refusal(open.sid, nrc)]
      case ResponsePending => if at >= open.last + RCRRP_REPEAT_MS then [Pending(open.sid)] else []
  }

  /** The session ends when nothing has extended it for its whole time; nothing is due then for a request. */
  predicate SessionOver(o: Seen, at: nat) {
    o.session.Since? && at >= o.session.at + S3_MS
  }

  /** The notes of a call are exactly what is due. */
  ghost predicate Due(t: Table, o: Seen, m: Moment) {
    match m.e
    case ERequest(_, req, session, a) =>
      if req.None? || |req.value| == 0 then m.notes == [Malformed, Refusal(0, GENERAL_REJECT)]
      else if o.open.Some? then m.notes == []
      else |m.notes| == 2 && m.notes[0] == Accepted(req.value[0]) && FirstAnswer(t, req.value, session, a, m.notes[1])
    case ECyclic(_, code, defaultSession) =>
      if o.open.Some? then
        var due := PendingNotes(o.open.value, m.at, code);
        if due == [] || due == [Pending(o.open.value.sid)] || due == [McuReset] then m.notes == due
        else m.notes == due + if SessionOver(o, m.at) && !defaultSession then [SessionReset] else []
      else m.notes == if SessionOver(o, m.at) && !defaultSession then [SessionReset] else []
    case _ => m.notes == []
  }

  // ----- The server does exactly that ---------------------------------------------------------------------

  /** Control block and timers hold what the observer knows. */
  ghost predicate Agrees(t: Table, s: State, o: Seen) {
    && (s.index.Some? <==> o.open.Some?)
    && (s.index.Some? ==>
          && Serves(t, o.open.value.sid, s.index.value) && s.txConfirm == o.open.value.confirmed
          && s.rcrrp == Running(o.open.value.last, RCRRP_REPEAT_MS) && s.limit == Running(o.open.value.first, RCRRP_LIMIT_MS))
    && (s.s3 == match o.session case Unset => Idle case Held => Stopped case Since(at) => Running(at, S3_MS))
  }

  lemma FindServes(t: Table, sid: byte, i: nat)
    ensures Serves(t, sid, i) <==> i == Find(t, sid, 0) && i < |t|
  {
  }

  /** One more note, and the control block as the observer expects it behind the first answer to req. */
  ghost predicate AnsweredBy(t: Table, s: State, s': State, sid: byte, n: Note) {
    && s'.log == s.log + [n] && s'.now == s.now && (s'.index.Some? <==> n.Pending?)
    && (s'.index.Some? ==>
          && Serves(t, sid, s'.index.value) && n == Pending(sid) && !s'.txConfirm
          && s'.rcrrp == Running(s.now, RCRRP_REPEAT_MS) && s'.limit == Running(s.now, RCRRP_LIMIT_MS))
    && (s'.s3 == s.s3 || s'.s3 == Running(s.now, S3_MS))
  }

  lemma RefusalDue(t: Table, s: State, sid: byte, nrc: byte)
    ensures AnsweredBy(t, s, SendNegative(s, sid, nrc), sid, Refusal(sid, nrc))
  {
  }

  /** The handler's own answer. */
  lemma RespondDue(t: Table, s: State, i: nat, req: bytes, session: nat, a: Answer) returns (n: Note)
    requires |req| > 0 && Serves(t, req[0], i) && s.index.None? && s.suppress == a.suppress
    requires t[i].handler && session in t[i].sessions && |req| >= t[i].minLength
    ensures AnsweredBy(t, s, Respond(t, s, i, a.code), req[0], n) && RowAnswers(t[i], req, session, a, n)
  {
    hide Serves;
    ServedHere(t, req[0], i);
    n := match a.code
      case Positive => Final(req[0], Positive, a.suppress)
      case Negative(nrc) => Refusal(req[0], nrc)
      case ResponsePending => if t[i].pending then Pending(req[0]) else Refusal(req[0], GENERAL_REJECT);
  }

  lemma ServedHere(t: Table, sid: byte, i: nat)
    requires Serves(t, sid, i)
    ensures i < |t| && t[i].sid == sid
  {
  }

  /** The first answer, and what it leaves the control block with. */
  lemma DispatchDue(t: Table, s: State, req: bytes, session: nat, a: Answer) returns (n: Note)
    requires |req| > 0 && !s.suppress && s.index.None?
    ensures AnsweredBy(t, s, Dispatch(t, s, req, session, a), req[0], n) && FirstAnswer(t, req, session, a, n)
  {
    hide Find, SendNegative, Respond, AnsweredBy;
    var sid, i := req[0], Find(t, req[0], 0);
    forall j: nat ensures Serves(t, sid, j) <==> j == i && i < |t| { FindServes(t, sid, j); }
    if i == |t| {
      n := Refusal(sid, SERVICE_NOT_SUPPORTED);
      RefusalDue(t, s, sid, SERVICE_NOT_SUPPORTED);
    } else {
      hide Serves;
      if !t[i].handler {
        n := Refusal(sid, GENERAL_REJECT);
        RefusalDue(t, s, sid, GENERAL_REJECT);
      } else if session !in t[i].sessions {
        n := Refusal(sid, NOT_IN_SESSION);
        RefusalDue(t, s, sid, NOT_IN_SESSION);
      } else if |req| < t[i].minLength {
        n := Refusal(sid, INCORRECT_LENGTH);
        RefusalDue(t, s, sid, INCORRECT_LENGTH);
      } else {
        var s1 := s.(busy := true, suppress := s.suppress || a.suppress);
        n := RespondDue(t, s1, i, req, session, a);
        SameBefore(t, s, s1, Respond(t, s1, i, a.code), sid, n);
      }
    }
  }

  lemma SameBefore(t: Table, s: State, s1: State, s': State, sid: byte, n: Note)
    requires AnsweredBy(t, s1, s', sid, n) && s1.log == s.log && s1.now == s.now && s1.s3 == s.s3
    ensures AnsweredBy(t, s, s', sid, n)
  {
  }

  /** The moment of this call. */
  function MomentOf(t: Table, s: State, e: Event): Moment {
    Moment(s.now + e.dt, e, New(s.log, Step(t, s, e).log))
  }

  ghost predicate Timely(t: Table, s: State, o: Seen, e: Event) {
    Due(t, o, MomentOf(t, s, e)) && Agrees(t, Step(t, s, e), Follow(o, MomentOf(t, s, e))) && Step(t, s, e).now == s.now + e.dt
  }

  lemma RequestDue(t: Table, s: State, o: Seen, e: Event)
    requires Inv(t, s) && Agrees(t, s, o) && e.ERequest?
    ensures Timely(t, s, o, e)
  {
    hide Scan, Schedule, Dispatch, FirstAnswer, Serves;
    if e.req.Some? && |e.req.value| > 0 && s.index.None? {
      var s1 := Record(StartS3(Wait(s, e.dt)), Accepted(e.req.value[0]));
      var n := DispatchDue(t, s1, e.req.value, e.session, e.answer);
      assert New(s.log, Step(t, s, e).log) == [Accepted(e.req.value[0]), n];
    } else if e.req.None? || |e.req.value| == 0 {
      assert New(s.log, Step(t, s, e).log) == [Malformed, Refusal(0, GENERAL_REJECT)];
    } else {
      assert New(s.log, Step(t, s, e).log) == [];
    }
  }

  /** The pending subtask adds exactly what is due, and moves the control block on as the observer expects. */
  lemma PendingDue(t: Table, s: State, o: Seen, code: Code)
    requires Inv(t, s) && Agrees(t, s, o) && s.index.Some?
    ensures var s', due := PendingSubtask(t, s, code), PendingNotes(o.open.value, s.now, code);
            && s'.log == s.log + due && s'.now == s.now
            && (due == [] ==> s' == s)
            && (due == [Pending(o.open.value.sid)] ==>
                  s'.index == s.index && !s'.txConfirm && s'.rcrrp == Running(s.now, RCRRP_REPEAT_MS) && s'.limit == s.limit
                  && s'.s3 == Running(s.now, S3_MS))
            && (due != [] && due != [Pending(o.open.value.sid)] ==> s'.index.None? && s'.s3 == if due == [McuReset] then Idle else s.s3)
  {
    hide Scan, Schedule;
    ServedHere(t, o.open.value.sid, s.index.value);
    hide Serves;
  }

  lemma CyclicDue(t: Table, s: State, o: Seen, e: Event)
    requires Inv(t, s) && Agrees(t, s, o) && e.ECyclic?
    ensures Timely(t, s, o, e)
  {
    hide Scan, PendingSubtask, Serves, PendingNotes;
    var w := Wait(s, e.dt);
    WaitKeeps(t, s, e.dt);
    WaitAgrees(t, s, o, e.dt);
    var s1 := PendingSubtask(t, w, e.code);
    if s.index.Some? {
      PendingDue(t, w, o, e.code);
      PendingKeeps(t, w, e.code);
      S3Keeps(t, s1, e.defaultSession);
      var due := PendingNotes(o.open.value, w.now, e.code);
      DueShape(o.open.value, w.now, e.code);
      var s' := Step(t, s, e);
      assert New(s.log, s'.log) == due || New(s.log, s'.log) == due + [SessionReset];
    } else {
      NothingPending(t, w, e.code);
      var s' := Step(t, s, e);
      assert New(s.log, s'.log) == [] || New(s.log, s'.log) == [SessionReset];
    }
  }

  lemma WaitAgrees(t: Table, s: State, o: Seen, dt: nat)
    requires Agrees(t, s, o)
    ensures Agrees(t, Wait(s, dt), o)
  {
  }

  lemma NothingPending(t: Table, s: State, code: Code)
    requires s.index.None?
    ensures PendingSubtask(t, s, code) == s
  {
  }

  lemma DueShape(open: Pursuit, at: nat, code: Code)
    ensures var due := PendingNotes(open, at, code);
            || due == [] || due == [Pending(open.sid)] || due == [McuReset]
            || (|due| == 1 && (due[0].Final? || due[0].ConfirmTimeout?))
  {
  }

  lemma StepDue(t: Table, s: State, o: Seen, e: Event)
    requires Inv(t, s) && Agrees(t, s, o)
    ensures Timely(t, s, o, e)
  {
    match e
    case ERequest(_, _, _, _) => RequestDue(t, s, o, e);
    case ECyclic(_, _, _) => CyclicDue(t, s, o, e);
    case _ => OtherDue(t, s, o, e);
  }

  lemma OtherDue(t: Table, s: State, o: Seen, e: Event)
    requires Inv(t, s) && Agrees(t, s, o) && !e.ERequest? && !e.ECyclic?
    ensures Timely(t, s, o, e)
  {
    hide Scan, Schedule, Serves;
    assert New(s.log, Step(t, s, e).log) == [];
  }

  lemma {:induction false} RunAgrees(t: Table, events: seq<Event>)
    ensures Agrees(t, Run(t, events), Watch(Timeline(t, events))) && Run(t, events).now == Time(events)
  {
    hide Inv, Step, Agrees, Follow, Due;
    if events == [] {
      StartsAgreeing(t);
    } else {
      var before, e := events[..|events| - 1], events[|events| - 1];
      RunAgrees(t, before);
      RunKeeps(t, before);
      StepDue(t, Run(t, before), Watch(Timeline(t, before)), e);
      TimelineGrows(t, events);
    }
  }

  lemma StartsAgreeing(t: Table)
    ensures Agrees(t, Init(), Seen(None, Unset))
  {
  }

  lemma TimelineGrows(t: Table, events: seq<Event>)
    requires events != [] && Run(t, events[..|events| - 1]).now == Time(events[..|events| - 1])
    ensures var before, e := events[..|events| - 1], events[|events| - 1];
            var m := MomentOf(t, Run(t, before), e);
            && Timeline(t, events) == Timeline(t, before) + [m] && Timeline(t, events)[..|Timeline(t, events)| - 1] == Timeline(t, before)
            && Watch(Timeline(t, events)) == Follow(Watch(Timeline(t, before)), m)
  {
    hide Step, Follow;
  }

  /**
   * In every run each call does exactly what is due by the calls, times and answers before it: a request is answered by
   * the decision of its first row, its session, its length and its handler; a request under way is repeated, finished,
   * given up or reset on schedule; and the session ends exactly when nothing has extended it for its whole time.
   */
  lemma {:induction false} AlwaysDue(t: Table, events: seq<Event>, k: nat)
    requires k < |events|
    ensures |Timeline(t, events)| == |events| && Timeline(t, events)[k].e == events[k]
    ensures Due(t, Watch(Timeline(t, events)[..k]), Timeline(t, events)[k])
  {
    hide Inv, Step, Agrees, Follow, Due, New;
    var n := |events| - 1;
    var before := events[..n];
    RunAgrees(t, before);
    RunKeeps(t, before);
    TimelineGrows(t, events);
    TimelineSize(t, before);
    if k == n {
      StepDue(t, Run(t, before), Watch(Timeline(t, before)), events[n]);
    } else {
      AlwaysDue(t, before, k);
      assert Timeline(t, events)[..k] == Timeline(t, before)[..k] && Timeline(t, events)[k] == Timeline(t, before)[k];
    }
  }

  lemma {:induction false} TimelineSize(t: Table, events: seq<Event>)
    ensures |Timeline(t, events)| == |events|
  {
    if events != [] { TimelineSize(t, events[..|events| - 1]); }
  }
}
