/**
 * Which AnchorCom messages can still get through. Only the head of a Tx queue is worked on, so a head whose encryption
 * failed, and whose error count is below the limit, holds up every message behind it for good.
 */
module AnchorComProgress {
  import opened Bytes
  import opened AnchorComFormat
  import T = AnchorComTx
  import R = AnchorComRx
  import X = AnchorComRxQueue
  import opened AnchorComEndToEnd

  /** Neither worked on, nor counted, nor removed. */
  predicate Stuck(c: T.Config, s: T.State) {
    s.q == T.EncReady && !s.dropped && s.err < c.maxRetry
  }

  /** The system after some more events. */
  ghost function From(g: X.Config, y: Sys, more: seq<Event>): (y': Sys)
    requires Inv(g, y)
    ensures Inv(g, y')
  {
    if more == [] then y
    else
      var y1 := From(g, y, more[..|more| - 1]);
      StepKeeps(g, y1, more[|more| - 1]);
      Step(g, y1, more[|more| - 1])
  }

  lemma {:induction false} RunFrom(g: X.Config, n: nat, events: seq<Event>, more: seq<Event>)
    requires g.Valid()
    ensures Run(g, n, events + more) == From(g, Run(g, n, events), more)
  {
    hide Inv, Step;
    if more == [] {
      assert events + more == events;
    } else {
      var k := |more| - 1;
      RunFrom(g, n, events, more[..k]);
      assert (events + more)[..|events + more| - 1] == events + more[..k];
    }
  }

  lemma {:induction false} FromFrom(g: X.Config, y: Sys, a: seq<Event>, b: seq<Event>)
    requires Inv(g, y)
    ensures From(g, y, a + b) == From(g, From(g, y, a), b)
  {
    hide Inv, Step;
    if b == [] {
      assert a + b == a;
    } else {
      var k := |b| - 1;
      FromFrom(g, y, a, b[..k]);
      assert (a + b)[..|a + b| - 1] == a + b[..k];
    }
  }

  lemma FromOne(g: X.Config, y: Sys, e: Event)
    requires Inv(g, y)
    ensures From(g, y, [e]) == Step(g, y, e)
  {
    hide Inv, Step;
    assert [e][..0] == [];
    assert From(g, y, []) == y;
  }

  // ----- What cannot happen any more --------------------------------------------------------------------

  /** Message pos, while it is queued, is not hopeful. */
  ghost predicate Hopeless(y: Sys, pos: nat) {
    forall i :: 0 <= i < |y.queue| && y.queue[i].pos == pos ==>
      pos < |y.accepted| && !T.Hopeful(y.accepted[pos].t, y.queue[i].s)
  }

  /** The head is stuck. */
  ghost predicate HeldUp(y: Sys) {
    y.queue != [] && y.queue[0].pos < |y.accepted| && Stuck(y.accepted[y.queue[0].pos].t, y.queue[0].s)
  }

  lemma StuckStays(k: Crypto, c: T.Config, p: bytes, flag: byte, s: T.State, e: T.Event)
    requires T.Inv(k, c, p, flag, s) && Stuck(c, s)
    ensures T.Sized(s) && T.Step(k, c, s, e) == s
  {
    T.InProgress(k, c, p, flag, s);
  }

  /** A stuck head stays as it is, nothing leaves the queue and nothing is sent. */
  lemma HeldUpStep(g: X.Config, y: Sys, e: Event)
    requires Inv(g, y) && HeldUp(y)
    ensures var y' := Step(g, y, e); HeldUp(y') && y.queue <= y'.queue && y'.sent == y.sent
  {
    hide T.Inv, X.Inv, SentOk, ArrivedOk, PipelineOk, R.Agree, T.Cycle, T.Confirm, T.Enqueue, X.Cycle, X.Indicate, Carry;
    var h := y.queue[0];
    var msg := y.accepted[h.pos];
    assert ItemOk(g, y.accepted, h);
    HeadOnWire(g, y.accepted, h);
    match e
    case ETxCycle(env) =>
      StuckStays(g.k, msg.t, msg.payload, msg.flag, h.s, T.ECycle(env));
      assert Step(g, y, e).queue == y.queue;
    case EConfirm(result) =>
      StuckStays(g.k, msg.t, msg.payload, msg.flag, h.s, T.EConfirm(result));
      assert Step(g, y, e).queue == y.queue;
    case ECarry => NothingToCarry(y);
    case _ =>
  }

  lemma NothingToCarry(y: Sys)
    requires y.queue != [] && y.queue[0].pos < |y.accepted| && T.Sized(y.queue[0].s) && !y.queue[0].s.inProgress
    ensures Carry(y) == y
  {
  }

  lemma {:induction false} HeldUpFrom(g: X.Config, y: Sys, more: seq<Event>)
    requires Inv(g, y) && HeldUp(y)
    ensures var y' := From(g, y, more); HeldUp(y') && y.queue <= y'.queue && y'.sent == y.sent
  {
    hide Inv, Step, HeldUp;
    if more != [] {
      HeldUpFrom(g, y, more[..|more| - 1]);
      HeldUpStep(g, From(g, y, more[..|more| - 1]), more[|more| - 1]);
    }
  }

  /**
   * Once the head of a Tx queue is stuck in encryption below the error limit, it is the head in every continuation,
   * every entry behind it stays where it is, and nothing is ever sent to that peer again.
   */
  lemma QueueHeldUpForGood(g: X.Config, n: nat, events: seq<Event>, more: seq<Event>)
    requires g.Valid() && HeldUp(Run(g, n, events))
    ensures var y, y' := Run(g, n, events), Run(g, n, events + more); y.queue <= y'.queue && y'.sent == y.sent
  {
    hide Inv, Step, HeldUp, Run;
    RunFrom(g, n, events, more);
    HeldUpFrom(g, Run(g, n, events), more);
  }

  lemma HopelessStep(g: X.Config, y: Sys, e: Event, pos: nat)
    requires Inv(g, y) && Hopeless(y, pos) && pos < |y.accepted|
    ensures var y' := Step(g, y, e); Hopeless(y', pos) && pos < |y'.accepted|
  {
    hide T.Inv, X.Inv, SentOk, ArrivedOk, PipelineOk, R.Agree, T.Cycle, T.Confirm, T.Enqueue, X.Cycle, X.Indicate, T.Hopeful;
    if y.queue != [] {
      var h := y.queue[0];
      var msg := y.accepted[h.pos];
      assert ItemOk(g, y.accepted, h);
      HeadOnWire(g, y.accepted, h);
      if h.pos == pos && (e.ETxCycle? || e.EConfirm?) {
        T.HopelessStep(g.k, msg.t, msg.payload, msg.flag, h.s, if e.ETxCycle? then T.ECycle(e.txEnv) else T.EConfirm(e.result));
      }
    }
  }

  lemma {:induction false} HopelessFrom(g: X.Config, y: Sys, more: seq<Event>, pos: nat)
    requires Inv(g, y) && Hopeless(y, pos) && pos < |y.accepted|
    ensures var y' := From(g, y, more); Hopeless(y', pos) && pos < |y'.accepted|
  {
    hide Inv, Step, Hopeless;
    if more != [] {
      HopelessFrom(g, y, more[..|more| - 1], pos);
      HopelessStep(g, From(g, y, more[..|more| - 1]), more[|more| - 1], pos);
    }
  }

  // ----- What can be made to happen -----------------------------------------------------------------------

  /** Only the head changed, and it is still the same message. */
  ghost predicate SameButHead(y: Sys, y': Sys) {
    && y.queue != [] && |y'.queue| == |y.queue| && y'.queue[0].pos == y.queue[0].pos && y'.queue[1..] == y.queue[1..]
    && y'.accepted == y.accepted
  }

  lemma HeadCycles(g: X.Config, y: Sys, env: T.Env)
    requires Inv(g, y) && y.queue != []
    ensures y.queue[0].pos < |y.accepted| && g.k.Valid() && T.Sized(y.queue[0].s)
    ensures var y' := Step(g, y, ETxCycle(env));
            SameButHead(y, y') && y'.queue[0].s == T.Cycle(g.k, y.accepted[y.queue[0].pos].t, y.queue[0].s, env)
  {
    hide T.Inv, X.Inv, SentOk, ArrivedOk, PipelineOk, R.Agree, T.Cycle;
    ValidCrypto(g, y);
    assert ItemOk(g, y.accepted, y.queue[0]);
    HeadOnWire(g, y.accepted, y.queue[0]);
  }

  lemma HeadConfirmed(g: X.Config, y: Sys)
    requires Inv(g, y) && y.queue != [] && y.queue[0].s.inProgress
    ensures var y' := Step(g, y, EConfirm(Ok)); SameButHead(y, y') && y'.queue[0].s.q == T.TransDone
  {
    hide T.Inv, X.Inv, SentOk, ArrivedOk, PipelineOk, R.Agree;
  }

  /** A hopeful head can be sent and confirmed. */
  lemma FinishHead(g: X.Config, y: Sys) returns (more: seq<Event>)
    requires Inv(g, y) && y.queue != [] && y.queue[0].pos < |y.accepted|
    requires T.Hopeful(y.accepted[y.queue[0].pos].t, y.queue[0].s)
    ensures var y' := From(g, y, more); SameButHead(y, y') && y'.queue[0].s.q == T.TransDone
  {
    hide Inv, Step, From, T.Cycle;
    var h := y.queue[0];
    HeadRuns(g, y);
    if h.s.q == T.TransDone {
      more := [];
      assert From(g, y, []) == y by { FromNone(g, y); }
    } else if h.s.q == T.TransRunning {
      more := [EConfirm(Ok)];
      FromOne(g, y, EConfirm(Ok));
      HeadConfirmed(g, y);
    } else {
      var e := ETxCycle(T.FAVOURABLE);
      more := [e] + [EConfirm(Ok)];
      HeadCycles(g, y, T.FAVOURABLE);
      T.FavourableCycle(g.k, y.accepted[h.pos].t, h.s);
      FromOne(g, y, e);
      var y1 := From(g, y, [e]);
      FromOne(g, y1, EConfirm(Ok));
      FromFrom(g, y, [e], [EConfirm(Ok)]);
      HeadConfirmed(g, y1);
    }
  }

  lemma FromNone(g: X.Config, y: Sys)
    requires Inv(g, y)
    ensures From(g, y, []) == y
  {
  }

  lemma HeadRuns(g: X.Config, y: Sys)
    requires Inv(g, y) && y.queue != []
    ensures y.queue[0].s.inProgress <==> y.queue[0].s.q == T.TransRunning && !y.queue[0].s.dropped
  {
    hide T.Inv, X.Inv, SentOk, ArrivedOk, PipelineOk, R.Agree;
    var h := y.queue[0];
    assert ItemOk(g, y.accepted, h);
    var msg := y.accepted[h.pos];
    T.InProgress(g.k, msg.t, msg.payload, msg.flag, h.s);
  }

  /** An entry that is neither hopeful nor stuck is removed by the next cycle. */
  lemma DroppedNow(k: Crypto, c: T.Config, s: T.State, env: T.Env)
    requires k.Valid() && T.Sized(s) && !T.Hopeful(c, s) && !Stuck(c, s) && !s.dropped
    ensures T.Cycle(k, c, s, env).dropped
  {
    hide T.Pass;
    T.PassStage(k, c, s, env);
  }

  lemma Removed(g: X.Config, y: Sys)
    requires Inv(g, y) && y.queue != [] && (y.queue[0].s.q == T.TransDone || y.queue[0].s.dropped)
    ensures var y' := From(g, y, [ERemove]); y'.queue == y.queue[1..] && y'.accepted == y.accepted
  {
    hide Inv, From;
    FromOne(g, y, ERemove);
  }

  /** A head that is not stuck can be got out of the way. */
  lemma ClearHead(g: X.Config, y: Sys) returns (more: seq<Event>)
    requires Inv(g, y) && y.queue != [] && y.queue[0].pos < |y.accepted|
    requires !Stuck(y.accepted[y.queue[0].pos].t, y.queue[0].s)
    ensures var y' := From(g, y, more); y'.queue == y.queue[1..] && y'.accepted == y.accepted
  {
    hide Inv, Step, From, T.Cycle, T.Hopeful, Stuck;
    var c, s := y.accepted[y.queue[0].pos].t, y.queue[0].s;
    var before: seq<Event>;
    if s.q == T.TransDone || s.dropped {
      before := [];
      FromNone(g, y);
    } else if T.Hopeful(c, s) {
      before := FinishHead(g, y);
    } else {
      before := [ETxCycle(T.FAVOURABLE)];
      HeadCycles(g, y, T.FAVOURABLE);
      FromOne(g, y, ETxCycle(T.FAVOURABLE));
      DroppedNow(g.k, c, s, T.FAVOURABLE);
    }
    more := before + [ERemove];
    FromFrom(g, y, before, [ERemove]);
    Removed(g, From(g, y, before));
  }

  /** None of the first i entries is stuck. */
  ghost predicate Passable(y: Sys, i: nat)
    requires i <= |y.queue|
  {
    forall j :: 0 <= j < i ==> y.queue[j].pos < |y.accepted| && !Stuck(y.accepted[y.queue[j].pos].t, y.queue[j].s)
  }

  lemma {:induction false} BringToHead(g: X.Config, y: Sys, i: nat) returns (more: seq<Event>)
    requires Inv(g, y) && i <= |y.queue| && Passable(y, i)
    ensures var y' := From(g, y, more); y'.queue == y.queue[i..] && y'.accepted == y.accepted
    decreases i
  {
    hide Inv, From, Stuck;
    if i == 0 {
      more := [];
      FromNone(g, y);
    } else {
      var first := ClearHead(g, y);
      var y1 := From(g, y, first);
      assert forall j :: 0 <= j < i - 1 ==> y1.queue[j] == y.queue[j + 1];
      var rest := BringToHead(g, y1, i - 1);
      more := first + rest;
      FromFrom(g, y, first, rest);
    }
  }

  /** Message pos is queued with its transmission confirmed. */
  ghost predicate Done(y: Sys, pos: nat) {
    exists i :: 0 <= i < |y.queue| && y.queue[i].pos == pos && y.queue[i].s.q == T.TransDone
  }

  lemma GetsThrough(g: X.Config, y: Sys, i: nat) returns (more: seq<Event>)
    requires Inv(g, y) && i < |y.queue| && Passable(y, i) && y.queue[i].pos < |y.accepted|
    requires T.Hopeful(y.accepted[y.queue[i].pos].t, y.queue[i].s)
    ensures Done(From(g, y, more), y.queue[i].pos)
  {
    hide Inv, From, T.Hopeful, Passable;
    var first := BringToHead(g, y, i);
    var y1 := From(g, y, first);
    assert y1.queue[0] == y.queue[i];
    var rest := FinishHead(g, y1);
    more := first + rest;
    FromFrom(g, y, first, rest);
  }

  /** A message that is not hopeful, or behind a stuck head, is never confirmed. */
  lemma NeverThrough(g: X.Config, y: Sys, i: nat, more: seq<Event>)
    requires Inv(g, y) && i < |y.queue| && y.queue[i].pos < |y.accepted|
    requires !T.Hopeful(y.accepted[y.queue[i].pos].t, y.queue[i].s) || !Passable(y, i)
    ensures !Done(From(g, y, more), y.queue[i].pos)
  {
    hide Inv, From, Step;
    QueueFacts(g, y);
    var pos := y.queue[i].pos;
    if !T.Hopeful(y.accepted[pos].t, y.queue[i].s) {
      HopelessFrom(g, y, more, pos);
    } else {
      HeldUpFrom(g, y, more);
      var y' := From(g, y, more);
      QueueFacts(g, y');
      assert y'.queue[i] == y.queue[i];
    }
  }

  lemma QueueFacts(g: X.Config, y: Sys)
    requires Inv(g, y)
    ensures forall i :: 0 <= i < |y.queue| ==> y.queue[i].pos < |y.accepted|
    ensures forall i :: 0 < i < |y.queue| ==> y.queue[i].s.q == T.Queued
    ensures forall i, j :: 0 <= i < j < |y.queue| ==> y.queue[i].pos < y.queue[j].pos
  {
    hide T.Inv, X.Inv, SentOk, ArrivedOk, PipelineOk, R.Agree;
    forall i | 0 <= i < |y.queue| ensures y.queue[i].pos < |y.accepted| {
      assert ItemOk(g, y.accepted, y.queue[i]);
    }
  }

  /**
   * The exact condition for a message to get through: at any point of any run, the entry at position i of a Tx queue has
   * a continuation that ends in its confirmed transmission if and only if it is hopeful itself and no entry in front of
   * it is stuck.
   */
  lemma GetsThroughExactly(g: X.Config, n: nat, events: seq<Event>, i: nat)
    requires g.Valid() && i < |Run(g, n, events).queue|
    ensures var y := Run(g, n, events);
            && (forall j :: 0 <= j < |y.queue| ==> y.queue[j].pos < |y.accepted|)
            && ((exists more :: Done(Run(g, n, events + more), y.queue[i].pos))
                <==> && T.Hopeful(y.accepted[y.queue[i].pos].t, y.queue[i].s)
                     && forall j :: 0 <= j < i ==> !Stuck(y.accepted[y.queue[j].pos].t, y.queue[j].s))
  {
    hide Inv, Run, Done, T.Hopeful, Stuck;
    var y := Run(g, n, events);
    QueueFacts(g, y);
    if T.Hopeful(y.accepted[y.queue[i].pos].t, y.queue[i].s) && Passable(y, i) {
      var more := GetsThrough(g, y, i);
      RunFrom(g, n, events, more);
    } else {
      forall more ensures !Done(Run(g, n, events + more), y.queue[i].pos) {
        RunFrom(g, n, events, more);
        NeverThrough(g, y, i, more);
      }
    }
  }

  // ----- When a queue can be held up --------------------------------------------------------------------

  /** A failed encryption is on the error count. */
  predicate Counted(c: T.Config, s: T.State) {
    s.q == T.EncReady ==> s.err > 0 || c.maxRetry == 0
  }

  ghost predicate AllCounted(y: Sys) {
    forall i :: 0 <= i < |y.queue| ==> y.queue[i].pos < |y.accepted| && Counted(y.accepted[y.queue[i].pos].t, y.queue[i].s)
  }

  lemma CountedStays(k: Crypto, c: T.Config, p: bytes, flag: byte, s: T.State, e: T.Event)
    requires T.Inv(k, c, p, flag, s) && Counted(c, s)
    ensures T.Sized(s) && Counted(c, T.Step(k, c, s, e))
  {
    hide T.Inv, T.Pass;
    T.ErrKeeps(k, c, p, flag, s);
    T.InProgress(k, c, p, flag, s);
    if e.ECycle? && s.q != T.TransDone { T.PassStage(k, c, s, e.env); }
  }

  lemma CountedStep(g: X.Config, y: Sys, e: Event)
    requires Inv(g, y) && AllCounted(y)
    ensures AllCounted(Step(g, y, e))
  {
    hide T.Inv, X.Inv, SentOk, ArrivedOk, PipelineOk, R.Agree, T.Cycle, T.Confirm, T.Enqueue, X.Cycle, X.Indicate, Counted;
    if y.queue != [] {
      var h := y.queue[0];
      var msg := y.accepted[h.pos];
      assert ItemOk(g, y.accepted, h);
      HeadOnWire(g, y.accepted, h);
      if e.ETxCycle? || e.EConfirm? {
        CountedStays(g.k, msg.t, msg.payload, msg.flag, h.s, if e.ETxCycle? then T.ECycle(e.txEnv) else T.EConfirm(e.result));
      }
    }
    if e.EAccept? && T.Room(e.buf, |e.p1| + |e.p2|) {
      T.StartsQueued(e.buf, e.p1, e.p2);
      NotFailedYet(e.t, T.Enqueue(e.buf, e.p1, e.p2));
    }
  }

  lemma NotFailedYet(c: T.Config, s: T.State)
    requires s.q == T.Queued
    ensures Counted(c, s)
  {
  }

  lemma {:induction false} CountedRun(g: X.Config, n: nat, events: seq<Event>)
    requires g.Valid()
    ensures AllCounted(Run(g, n, events))
  {
    hide Inv, Step, Counted;
    if events != [] {
      CountedRun(g, n, events[..|events| - 1]);
      CountedStep(g, Run(g, n, events[..|events| - 1]), events[|events| - 1]);
    }
  }

  /** The head is stuck, and it is a message of this row. */
  ghost predicate HeldUpBy(y: Sys, t: T.Config) {
    HeldUp(y) && y.accepted[y.queue[0].pos].t == t
  }

  /** Freshness is found and the encryption fails, not fatally. */
  const FAILING: T.Env := T.FAVOURABLE.(encrypt := CsmFail)

  lemma FailingCycle(k: Crypto, c: T.Config, buf: bytes)
    requires k.Valid() && T.Room(buf, 0) && c.encrypt && c.maxRetry > 1
    ensures var s := T.Enqueue(buf, [], []); T.Sized(s) && Stuck(c, T.Cycle(k, c, s, FAILING))
  {
    hide T.Pass;
    var s := T.Enqueue(buf, [], []);
    T.PassStage(k, c, s, FAILING);
  }

  lemma HoldsUp(g: X.Config, n: nat, t: T.Config) returns (events: seq<Event>)
    requires g.Valid() && R.Agree(t, g.c) && t.encrypt && t.maxRetry > 1
    ensures HeldUpBy(Run(g, n, events), t)
  {
    hide Inv, R.Agree, T.Enqueue, T.Cycle, Stuck;
    var buf := Fill(HEADER_LEN + AES_KEY_LEN + FRESH_LEN, 0);
    var a, e := EAccept(t, buf, [], []), ETxCycle(FAILING);
    assert Run(g, n, []) == Init(g, n);
    RunFrom(g, n, [], [a]);
    FromOne(g, Init(g, n), a);
    assert [] + [a] == [a];
    var y := Run(g, n, [a]);
    assert y.queue == [Item(0, T.Enqueue(buf, [], []), false)] && y.accepted[0].t == t;
    HeadCycles(g, y, FAILING);
    FailingCycle(g.k, t, buf);
    RunFrom(g, n, [a], [e]);
    FromOne(g, y, e);
    events := [a] + [e];
  }

  /** A message of row t can hold up its queue if and only if it is encrypted and may be tried more than once. */
  lemma HeldUpExactly(g: X.Config, n: nat, t: T.Config)
    requires g.Valid() && R.Agree(t, g.c)
    ensures (exists events :: HeldUpBy(Run(g, n, events), t)) <==> t.encrypt && t.maxRetry > 1
  {
    hide Inv, Run, R.Agree;
    if t.encrypt && t.maxRetry > 1 {
      var events := HoldsUp(g, n, t);
    } else {
      forall events ensures !HeldUpBy(Run(g, n, events), t) {
        CountedRun(g, n, events);
        StuckIsEncrypted(g, Run(g, n, events));
      }
    }
  }

  lemma StuckIsEncrypted(g: X.Config, y: Sys)
    requires Inv(g, y)
    ensures HeldUp(y) ==> y.accepted[y.queue[0].pos].t.encrypt
  {
    hide X.Inv, SentOk, ArrivedOk, PipelineOk, R.Agree;
    if HeldUp(y) { assert ItemOk(g, y.accepted, y.queue[0]); }
  }
}
