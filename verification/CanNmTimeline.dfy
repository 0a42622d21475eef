/**
 * When a node transmits and when it changes its state, read off nothing but the calls, their times and what it did
 * before: the cycle in force runs from the last transmission, or from the last frame heard in normal operation.
 */
module CanNmTimeline {
  import opened Bytes
  import opened ElTime
  import opened CanNm

  /** A call, when it was made, and what the node did in it. */
  datatype Moment = Moment(at: nat, e: Event, notes: seq<Note>)

  /** The calls of a run with what they led to. */
  function Timeline(c: Config, events: seq<Event>): seq<Moment> {
    if events == [] then []
    else
      var before := events[..|events| - 1];
      Timeline(c, before) + [Moment(Time(events), events[|events| - 1], New(Run(c, before).log, Run(c, events).log))]
  }

  function Time(events: seq<Event>): nat {
    if events == [] then 0 else Time(events[..|events| - 1]) + events[|events| - 1].dt
  }

  function New(a: seq<Note>, b: seq<Note>): seq<Note> {
    if |a| <= |b| then b[|a|..] else []
  }

  // ----- The observer -------------------------------------------------------------------------------------

  /** The next transmission is due this long after that time. */
  datatype Cycle = Cycle(since: nat, period: nat)

  /** The state and its quiet time, the cycle in force, immediate transmissions to come, and what was asked of the node. */
  datatype View = View(state: Nm, since: nat, cycle: Option<Cycle>, immediate: nat, requested: bool, repeat: bool)

  const ASLEEP: set<Nm> := {BusSleep, PrepareSleep}
  const TRANSMITTING: set<Nm> := {NormalOperation, RepeatMessage}

  /** The first transmission in repeat message starts an immediate cycle if any is left; a later one if another is left. */
  function PeriodAfter(c: Config, v: View): nat {
    if v.state == RepeatMessage && v.immediate > (if v.cycle.None? then 0 else 1) then c.immediateCycle else c.msgCycle
  }

  function FollowNote(c: Config, v: View, n: Note): View {
    match n
    case Enter(to, at, _) =>
      View(to, at, if to == NormalOperation then v.cycle else None,
           if to == RepeatMessage && v.state in ASLEEP && v.requested then c.immediateTransmissions else 0, v.requested, false)
    case Heard(at) =>
      if v.state == ReadySleep then v.(since := at)
      else if v.state == NormalOperation && c.reduced > 0 then v.(cycle := Some(Cycle(at, c.reduced)))
      else v
    case Triggered(at) =>
      v.(cycle := Some(Cycle(at, PeriodAfter(c, v))), immediate := if v.immediate > 0 then v.immediate - 1 else 0)
  }

  function FollowNotes(c: Config, v: View, notes: seq<Note>): View {
    if notes == [] then v else FollowNote(c, FollowNotes(c, v, notes[..|notes| - 1]), notes[|notes| - 1])
  }

  /** A wake-up from the sleep modes, or a request to repeat the messages; the next main function call decides on it. */
  predicate AsksToRepeat(v: View, e: Event) {
    match e
    case EPassive(_) => v.state in ASLEEP
    case ERx(_, longEnough, repeatRequest) => longEnough && (v.state in ASLEEP || (repeatRequest && v.state != RepeatMessage))
    case _ => false
  }

  function Follow(c: Config, v: View, m: Moment): View {
    var v' := FollowNotes(c, v, m.notes);
    match m.e
    case ENetwork(_, requested) => v'.(requested := requested)
    case _ => if AsksToRepeat(v, m.e) then v'.(repeat := true) else v'
  }

  function Observe(c: Config, tl: seq<Moment>): View {
    if tl == [] then View(BusSleep, 0, None, 0, false, false) else Follow(c, Observe(c, tl[..|tl| - 1]), tl[|tl| - 1])
  }

  // ----- What is due --------------------------------------------------------------------------------------

  predicate CycleOver(v: View, at: nat) {
    v.cycle.Some? && at >= v.cycle.value.since + v.cycle.value.period
  }

  /** The transmission of the cycle in force. */
  function Cyclic(v: View, at: nat): seq<Note> {
    if v.state in TRANSMITTING && CycleOver(v, at) then [Triggered(at)] else []
  }

  /** Where a main function call leads, behind its cyclic transmission. */
  function Goes(c: Config, v: View, at: nat): Nm {
    match v.state
    case BusSleep => if v.requested || v.repeat then RepeatMessage else BusSleep
    case PrepareSleep =>
      if v.requested then RepeatMessage
      else if at >= v.since + c.waitBusSleep then BusSleep
      else if v.repeat then RepeatMessage else PrepareSleep
    case ReadySleep =>
      if v.requested then NormalOperation
      else if at >= v.since + c.timeout then PrepareSleep
      else if v.repeat then RepeatMessage else ReadySleep
    case NormalOperation =>
      if !v.requested then ReadySleep else if v.repeat then RepeatMessage else NormalOperation
    case RepeatMessage =>
      if v.immediate > 0 || at < v.since + c.repeatMessage then RepeatMessage
      else if v.requested then NormalOperation else ReadySleep
  }

  /** Repeat message begins with a transmission; so does normal operation, unless a cycle is under way. */
  function Arrival(v: View, to: Nm, at: nat): seq<Note> {
    if to == v.state then []
    else if to == RepeatMessage || (to == NormalOperation && (v.cycle.None? || CycleOver(v, at)))
    then [Enter(to, at, v.requested), Triggered(at)]
    else [Enter(to, at, v.requested)]
  }

  /** The notes of a call are exactly what is due. */
  predicate Due(c: Config, v: View, m: Moment) {
    match m.e
    case EMain(_, online) =>
      if !online then m.notes == []
      else
        var v' := FollowNotes(c, v, Cyclic(v, m.at));
        m.notes == Cyclic(v, m.at) + Arrival(v', Goes(c, v', m.at), m.at)
    case ERx(_, longEnough, _) => m.notes == if longEnough then [Heard(m.at)] else []
    case _ => m.notes == []
  }

  // ----- The node does exactly that -----------------------------------------------------------------------

  function Waiting(c: Config, v: View): Timer {
    match v.state
    case BusSleep => Idle
    case PrepareSleep => Running(v.since, c.waitBusSleep)
    case ReadySleep => Running(v.since, c.timeout)
    case NormalOperation => Idle
    case RepeatMessage => Running(v.since, c.repeatMessage)
  }

  /** Variables and timers hold what the observer knows. */
  ghost predicate Agrees(c: Config, s: State, v: View) {
    && s.state == v.state && s.requested == v.requested && s.count == v.immediate
    && s.next == (if v.repeat then RepeatMessage else v.state) && (v.repeat ==> v.state != RepeatMessage)
    && (v.state != RepeatMessage ==> v.immediate == 0)
    && (v.state in TRANSMITTING <==> v.cycle.Some?)
    && s.cycleTimer == (match v.cycle case None => Idle case Some(b) => Running(b.since, b.period))
    && s.nmTimer == Waiting(c, v)
  }

  lemma OneNote(c: Config, v: View, n: Note)
    ensures FollowNotes(c, v, [n]) == FollowNote(c, v, n)
  {
    assert [n][..0] == [];
  }

  lemma {:induction false} MoreNotes(c: Config, v: View, a: seq<Note>, b: seq<Note>)
    ensures FollowNotes(c, v, a + b) == FollowNotes(c, FollowNotes(c, v, a), b)
  {
    if b == [] {
      assert a + b == a;
    } else {
      MoreNotes(c, v, a, b[..|b| - 1]);
      assert (a + b)[..|a + b| - 1] == a + b[..|b| - 1];
    }
  }

  lemma CycleDue(c: Config, s: State, v: View)
    requires Agrees(c, s, v)
    ensures var s' := CycleHandling(c, s);
            && s'.log == s.log + Cyclic(v, s.now) && s'.now == s.now && Agrees(c, s', FollowNotes(c, v, Cyclic(v, s.now)))
  {
    OneNote(c, v, Triggered(s.now));
  }

  /** The handlers decide on where to go; from sleep, a request sets the immediate transmissions. */
  lemma DecisionDue(c: Config, s: State, v: View)
    requires Agrees(c, s, v)
    ensures var s1 := RequestHandling(c, RepeatHandling(TimeoutHandling(s)));
            && s1 == s.(next := Goes(c, v, s.now), count := s1.count)
            && s1.count == if v.state in ASLEEP && v.requested then c.immediateTransmissions else v.immediate
  {
  }

  lemma ArrivalDue(c: Config, s: State, v: View, s1: State)
    requires Agrees(c, s, v) && s1.next == Goes(c, v, s.now) != v.state && s1 == s.(next := s1.next, count := s1.count)
    requires s1.count == if v.state in ASLEEP && v.requested then c.immediateTransmissions else v.immediate
    ensures var s', due := SetState(c, s1, s1.next), Arrival(v, s1.next, s.now);
            s'.log == s.log + due && s'.now == s.now && Agrees(c, s', FollowNotes(c, v, due))
  {
    var to := s1.next;
    var enter := Enter(to, s.now, v.requested);
    OneNote(c, v, enter);
    OneNote(c, FollowNote(c, v, enter), Triggered(s.now));
    MoreNotes(c, v, [enter], [Triggered(s.now)]);
    assert [enter] + [Triggered(s.now)] == [enter, Triggered(s.now)];
  }

  /** The moment of this call. */
  function MomentOf(c: Config, s: State, e: Event): Moment {
    Moment(s.now + e.dt, e, New(s.log, Step(c, s, e).log))
  }

  ghost predicate Timely(c: Config, s: State, v: View, e: Event) {
    && Due(c, v, MomentOf(c, s, e)) && Agrees(c, Step(c, s, e), Follow(c, v, MomentOf(c, s, e)))
    && Step(c, s, e).now == s.now + e.dt && Step(c, s, e).log == s.log + MomentOf(c, s, e).notes
  }

  lemma MainDue(c: Config, s: State, v: View, e: Event)
    requires Agrees(c, s, v) && e.EMain? && e.online
    ensures Timely(c, s, v, e)
  {
    hide CycleHandling, RequestHandling, RepeatHandling, TimeoutHandling, SetState, FollowNotes, Cyclic, Goes;
    var w := Wait(s, e.dt);
    WaitAgrees(c, s, v, e.dt);
    CycleDue(c, w, v);
    var s0, first := CycleHandling(c, w), Cyclic(v, w.now);
    var v0 := FollowNotes(c, v, first);
    DecisionDue(c, s0, v0);
    var s1 := RequestHandling(c, RepeatHandling(TimeoutHandling(s0)));
    var second := Arrival(v0, s1.next, w.now);
    if s1.next != s1.state {
      ArrivalDue(c, s0, v0, s1);
    } else {
      StaysPut(c, v0, w.now);
      StaysAgreeing(c, s0, v0, s1);
    }
    MoreNotes(c, v, first, second);
    assert New(s.log, Step(c, s, e).log) == first + second;
  }

  lemma StaysPut(c: Config, v: View, at: nat)
    ensures FollowNotes(c, v, []) == v
    ensures Goes(c, v, at) == v.state && (v.state != RepeatMessage ==> v.immediate == 0) ==> !v.repeat || v.state == RepeatMessage
    ensures v.state == BusSleep && v.requested ==> Goes(c, v, at) != v.state
    ensures v.state == PrepareSleep && v.requested ==> Goes(c, v, at) != v.state
  {
  }

  lemma StaysAgreeing(c: Config, s: State, v: View, s1: State)
    requires Agrees(c, s, v) && s1.next == v.state && s1 == s.(next := s1.next, count := s1.count) && s1.count == v.immediate && !v.repeat
    ensures Agrees(c, s1, v) && s1.log == s.log
  {
  }

  lemma WaitAgrees(c: Config, s: State, v: View, dt: nat)
    requires Agrees(c, s, v)
    ensures Agrees(c, Wait(s, dt), v)
  {
  }

  /** A frame heard changes the timer of the state, and may ask to repeat. */
  lemma HeardAgrees(c: Config, s: State, v: View, repeatRequest: bool)
    requires Agrees(c, s, v)
    ensures var s', v' := RxIndication(c, s, repeatRequest), FollowNote(c, v, Heard(s.now));
            && s'.log == s.log + [Heard(s.now)] && s'.now == s.now
            && Agrees(c, s', if v.state in ASLEEP || (repeatRequest && v.state != RepeatMessage) then v'.(repeat := true) else v')
  {
    hide PeriodAfter;
  }

  lemma HeardDue(c: Config, s: State, v: View, e: Event)
    requires Agrees(c, s, v) && e.ERx? && e.longEnough
    ensures Timely(c, s, v, e)
  {
    hide RxIndication, Agrees, FollowNotes, FollowNote, Goes, Arrival, Cyclic, Main;
    WaitAgrees(c, s, v, e.dt);
    HeardAgrees(c, Wait(s, e.dt), v, e.repeatRequest);
    OneNote(c, v, Heard(s.now + e.dt));
    assert New(s.log, Step(c, s, e).log) == [Heard(s.now + e.dt)];
  }

  lemma QuietDue(c: Config, s: State, v: View, e: Event)
    requires Agrees(c, s, v) && !(e.ERx? && e.longEnough) && !(e.EMain? && e.online)
    ensures Timely(c, s, v, e)
  {
    hide Goes, Arrival, Cyclic, PeriodAfter, SetState, CycleHandling, RequestHandling, RepeatHandling, TimeoutHandling;
    assert New(s.log, Step(c, s, e).log) == [];
  }

  lemma StepDue(c: Config, s: State, v: View, e: Event)
    requires Agrees(c, s, v)
    ensures Timely(c, s, v, e)
  {
    if e.EMain? && e.online { MainDue(c, s, v, e); }
    else if e.ERx? && e.longEnough { HeardDue(c, s, v, e); }
    else { QuietDue(c, s, v, e); }
  }

  lemma {:induction false} RunAgrees(c: Config, events: seq<Event>)
    ensures Agrees(c, Run(c, events), Observe(c, Timeline(c, events))) && Run(c, events).now == Time(events)
  {
    hide Step, Agrees, Follow, Due;
    if events == [] {
      StartsAgreeing(c);
    } else {
      var before, e := events[..|events| - 1], events[|events| - 1];
      RunAgrees(c, before);
      StepDue(c, Run(c, before), Observe(c, Timeline(c, before)), e);
      TimelineGrows(c, events);
    }
  }

  lemma StartsAgreeing(c: Config)
    ensures Agrees(c, Init(), View(BusSleep, 0, None, 0, false, false))
  {
  }

  lemma TimelineGrows(c: Config, events: seq<Event>)
    requires events != [] && Run(c, events[..|events| - 1]).now == Time(events[..|events| - 1])
    ensures var before, e := events[..|events| - 1], events[|events| - 1];
            var m := MomentOf(c, Run(c, before), e);
            && Timeline(c, events) == Timeline(c, before) + [m] && Timeline(c, events)[..|Timeline(c, events)| - 1] == Timeline(c, before)
            && Observe(c, Timeline(c, events)) == Follow(c, Observe(c, Timeline(c, before)), m)
  {
    hide Step, Follow;
  }

  lemma {:induction false} TimelineSize(c: Config, events: seq<Event>)
    ensures |Timeline(c, events)| == |events|
  {
    if events != [] { TimelineSize(c, events[..|events| - 1]); }
  }

  /**
   * In every run each call does exactly what is due by the calls, times and notes before it. A main function call while
   * online transmits in repeat message and normal operation exactly when the cycle in force is over, and nowhere else;
   * it then goes exactly where the state, its time, the network request and a request to repeat lead, with one more
   * transmission on arrival in repeat message, and in normal operation if no cycle is under way there.
   */
  lemma {:induction false} AlwaysDue(c: Config, events: seq<Event>, k: nat)
    requires k < |events|
    ensures |Timeline(c, events)| == |events| && Timeline(c, events)[k].e == events[k]
    ensures Due(c, Observe(c, Timeline(c, events)[..k]), Timeline(c, events)[k])
  {
    hide Step, Agrees, Follow, Due, New;
    var n := |events| - 1;
    var before := events[..n];
    RunAgrees(c, before);
    TimelineGrows(c, events);
    TimelineSize(c, before);
    if k == n {
      StepDue(c, Run(c, before), Observe(c, Timeline(c, before)), events[n]);
    } else {
      AlwaysDue(c, before, k);
      assert Timeline(c, events)[..k] == Timeline(c, before)[..k] && Timeline(c, events)[k] == Timeline(c, before)[k];
    }
  }

  /** In every run a passive start-up succeeds if and only if the history shows a sleep mode; otherwise it changes nothing. */
  lemma PassiveExactly(c: Config, events: seq<Event>)
    ensures var s, v := Run(c, events), Observe(c, Timeline(c, events));
            PassiveStartUp(s).1 == (if v.state in ASLEEP then Ok else NotOk) && (v.state !in ASLEEP ==> PassiveStartUp(s).0 == s)
  {
    RunAgrees(c, events);
  }

  // ----- No silence ---------------------------------------------------------------------------------------

  /** The note that the cycle in force runs from. */
  ghost predicate Paces(c: Config, log: seq<Note>, b: Cycle, i: nat) {
    && i < |log|
    && (|| (log[i] == Triggered(b.since) && b.period in {c.msgCycle, c.immediateCycle})
        || (log[i] == Heard(b.since) && b.period == c.reduced > 0))
  }

  ghost predicate Paced(c: Config, log: seq<Note>, v: View) {
    v.cycle.Some? ==> exists i :: Paces(c, log, v.cycle.value, i)
  }

  lemma PacedNote(c: Config, log: seq<Note>, v: View, n: Note)
    requires Paced(c, log, v)
    ensures Paced(c, log + [n], FollowNote(c, v, n))
  {
    if v.cycle.Some? {
      var i :| Paces(c, log, v.cycle.value, i);
      assert Paces(c, log + [n], v.cycle.value, i);
    }
    var v' := FollowNote(c, v, n);
    if v'.cycle.Some? && v'.cycle != v.cycle { assert Paces(c, log + [n], v'.cycle.value, |log|); }
  }

  lemma {:induction false} PacedNotes(c: Config, log: seq<Note>, v: View, notes: seq<Note>)
    requires Paced(c, log, v)
    ensures Paced(c, log + notes, FollowNotes(c, v, notes))
  {
    hide Paced, FollowNote;
    if notes == [] {
      assert log + notes == log;
    } else {
      var n := |notes| - 1;
      PacedNotes(c, log, v, notes[..n]);
      PacedNote(c, log + notes[..n], FollowNotes(c, v, notes[..n]), notes[n]);
      assert log + notes[..n] + [notes[n]] == log + notes;
    }
  }

  lemma {:induction false} RunPaced(c: Config, events: seq<Event>)
    ensures Paced(c, Run(c, events).log, Observe(c, Timeline(c, events)))
  {
    hide Step, Agrees, FollowNotes, Due, Paces, AsksToRepeat;
    if events != [] {
      var before, e := events[..|events| - 1], events[|events| - 1];
      RunPaced(c, before);
      RunAgrees(c, before);
      var v := Observe(c, Timeline(c, before));
      StepDue(c, Run(c, before), v, e);
      TimelineGrows(c, events);
      PacedNotes(c, Run(c, before).log, v, MomentOf(c, Run(c, before), e).notes);
    }
  }

  /** A main function call leaves no cycle that is over. */
  lemma FreshCycle(c: Config, v: View, m: Moment)
    requires Due(c, v, m) && m.e.EMain? && m.e.online
    ensures var v' := Follow(c, v, m);
            v'.state in TRANSMITTING && v'.cycle.Some? ==> v'.cycle.value.since == m.at || !CycleOver(v', m.at)
  {
    hide Goes;
    var first := Cyclic(v, m.at);
    OneNote(c, v, Triggered(m.at));
    var v0 := FollowNotes(c, v, first);
    var to := Goes(c, v0, m.at);
    var second := Arrival(v0, to, m.at);
    MoreNotes(c, v, first, second);
    var enter := Enter(to, m.at, v0.requested);
    OneNote(c, v0, enter);
    OneNote(c, FollowNote(c, v0, enter), Triggered(m.at));
    MoreNotes(c, v0, [enter], [Triggered(m.at)]);
    assert [enter] + [Triggered(m.at)] == [enter, Triggered(m.at)];
  }

  /** The longest time that a node that keeps the network awake may be silent for. */
  function Longest(c: Config): nat {
    var own := if c.immediateCycle > c.msgCycle then c.immediateCycle else c.msgCycle;
    if c.reduced > own then c.reduced else own
  }

  /** A message of the node itself, or one of its neighbours that it let count for its own. */
  ghost predicate Audible(c: Config, log: seq<Note>, at: nat, i: nat) {
    && i < |log| && (log[i].Triggered? || (log[i].Heard? && c.reduced > 0))
    && (log[i].at == at || at < log[i].at + Longest(c))
  }

  /**
   * After every main function call that leaves the node in repeat message or normal operation, there is a message on the
   * bus within the longest cycle: one of its own, or, only where a reduced time is configured, one that it heard.
   */
  lemma NeverSilent(c: Config, events: seq<Event>)
    requires events != [] && events[|events| - 1].EMain? && events[|events| - 1].online && Run(c, events).state in TRANSMITTING
    ensures exists i :: Audible(c, Run(c, events).log, Time(events), i)
  {
    hide Run, Step, Follow, Due, Observe;
    var before, e := events[..|events| - 1], events[|events| - 1];
    var tl := Timeline(c, before);
    RunAgrees(c, before);
    RunAgrees(c, events);
    RunPaced(c, events);
    TimelineGrows(c, events);
    StepDue(c, Run(c, before), Observe(c, tl), e);
    FreshCycle(c, Observe(c, tl), MomentOf(c, Run(c, before), e));
    var b := Observe(c, Timeline(c, events)).cycle.value;
    var i :| Paces(c, Run(c, events).log, b, i);
    assert Audible(c, Run(c, events).log, Time(events), i);
  }
}
