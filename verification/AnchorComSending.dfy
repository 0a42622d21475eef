/**
 * How an AnchorCom message gets out: after any cycles and confirmations, the stage it has reached, the errors counted
 * against it, its removal and the bytes on the wire are exactly what the answers of the services make of it.
 */
module AnchorComSending {
  import opened Bytes
  import opened AnchorComFormat
  import opened AnchorComTx

  /** Not dated; encryption failed; to be signed; to be transmitted; in transmission; confirmed. With its freshness. */
  datatype Stage = Waiting | Lost(f: TxFresh) | Signing(f: TxFresh) | Ready(f: TxFresh) | Running(f: TxFresh) | Sent(f: TxFresh)

  datatype Progress = Progress(stage: Stage, err: nat, removed: bool)

  function Cost(c: Config, answer: Csm): nat {
    match answer
    case CsmOk => 0
    case CsmFail => 1
    case CsmFatal => c.maxRetry
  }

  /** A cycle goes as far as the answers let it; the first one that does not costs what it is worth. */
  function Goes(c: Config, stage: Stage, env: Env): (Stage, nat)
    decreases match stage case Waiting => 2 case Signing(_) => 1 case _ => 0
  {
    match stage
    case Waiting =>
      if env.freshness.None? then (Waiting, 1)
      else if c.encrypt && env.encrypt != CsmOk then (Lost(env.freshness.value), Cost(c, env.encrypt))
      else Goes(c, Signing(env.freshness.value), env)
    case Signing(f) => if env.authenticate == CsmOk then Goes(c, Ready(f), env) else (stage, Cost(c, env.authenticate))
    case Ready(f) => (Running(f), if env.lowerOk then 0 else c.maxRetry)
    case Running(_) => (stage, 1)
    case _ => (stage, 0)
  }

  /** An entry is removed at the end of a cycle that brings its errors to the maximum; a failed transmission is one error. */
  function Next(c: Config, p: Progress, e: Event): Progress {
    match e
    case ECycle(env) =>
      if p.removed || p.stage.Sent? then p
      else
        var (stage, cost) := Goes(c, p.stage, env);
        Progress(stage, p.err + cost, p.err + cost >= c.maxRetry)
    case EConfirm(result) =>
      if !p.stage.Running? || p.removed then p
      else if result == Ok then p.(stage := Sent(p.stage.f))
      else p.(stage := Ready(p.stage.f), err := p.err + 1)
  }

  function After(c: Config, events: seq<Event>): Progress {
    if events == [] then Progress(Waiting, 0, false) else Next(c, After(c, events[..|events| - 1]), events[|events| - 1])
  }

  /** The queue state of each stage, and the freshness in the buffer. */
  ghost predicate AtStage(s: State, stage: Stage) {
    match stage
    case Waiting => s.q == Queued
    case Lost(f) => s.q == EncReady && s.freshness == f.value && s.trunc == f.trunc
    case Signing(f) => s.q == CmacReady && s.freshness == f.value && s.trunc == f.trunc
    case Ready(f) => s.q == TransReady && s.freshness == f.value && s.trunc == f.trunc
    case Running(f) => s.q == TransRunning && s.freshness == f.value && s.trunc == f.trunc
    case Sent(f) => s.q == TransDone && s.freshness == f.value && s.trunc == f.trunc
  }

  ghost predicate Follows(s: State, p: Progress) {
    AtStage(s, p.stage) && s.err == p.err && s.dropped == p.removed && (s.inProgress <==> p.stage.Running? && !p.removed)
  }

  lemma Dated(k: Crypto, c: Config, s: State, env: Env)
    requires k.Valid() && Sized(s) && s.q == Queued
    ensures var s' := Part1(k, c, s, env);
            && s'.dropped == s.dropped && s'.inProgress == s.inProgress
            && if env.freshness.None? then s'.q == Queued && s'.err == s.err + 1
               else if c.encrypt && env.encrypt != CsmOk then AtStage(s', Lost(env.freshness.value)) && s'.err == s.err + Cost(c, env.encrypt)
               else AtStage(s', Signing(env.freshness.value)) && s'.err == s.err
  {
    hide Laid, Write;
  }

  lemma Signed(k: Crypto, c: Config, s: State, env: Env, f: TxFresh)
    requires k.Valid() && Sized(s) && AtStage(s, Signing(f))
    ensures var s' := Part2(k, c, s, env);
            && s'.dropped == s.dropped && s'.inProgress == s.inProgress
            && if env.authenticate == CsmOk then AtStage(s', Ready(f)) && s'.err == s.err
               else AtStage(s', Signing(f)) && s'.err == s.err + Cost(c, env.authenticate)
  {
    hide Write;
  }

  lemma Other(k: Crypto, c: Config, s: State, env: Env)
    requires k.Valid() && Sized(s)
    ensures s.q != Queued ==> Part1(k, c, s, env) == s
    ensures s.q != CmacReady ==> Part2(k, c, s, env) == s
    ensures s.q != TransReady ==> Part3(c, s, env) == s
  {
  }

  lemma PassGoes(k: Crypto, c: Config, s: State, env: Env, p: Progress)
    requires k.Valid() && Sized(s) && Follows(s, p) && !p.removed && !p.stage.Sent?
    ensures var s', (stage, cost) := Pass(k, c, s, env), Goes(c, p.stage, env);
            AtStage(s', stage) && s'.err == s.err + cost && !s'.dropped && (s'.inProgress <==> stage.Running?)
  {
    CycleSizes(k, c, s, env);
    hide Part1, Part2, Sized;
    var s0 := if s.q == TransRunning then s.(err := s.err + 1) else s;
    var s1 := Part1(k, c, s0, env);
    Other(k, c, s0, env);
    Other(k, c, s1, env);
    if s.q == Queued { Dated(k, c, s, env); }
    match p.stage
    case Waiting => if s1.q == CmacReady { Signed(k, c, s1, env, env.freshness.value); }
    case Signing(f) => Signed(k, c, s, env, f);
    case _ =>
  }

  lemma StepFollows(k: Crypto, c: Config, s: State, p: Progress, e: Event)
    requires k.Valid() && Sized(s) && Follows(s, p)
    ensures Follows(Step(k, c, s, e), Next(c, p, e))
  {
    hide Pass, Sized, Goes;
    if e.ECycle? && !p.removed && !p.stage.Sent? {
      PassGoes(k, c, s, e.env, p);
    }
  }

  lemma SizedIn(k: Crypto, c: Config, p: bytes, flag: byte, s: State)
    requires Inv(k, c, p, flag, s)
    ensures Sized(s)
  {
  }

  lemma {:induction false} RunFollows(k: Crypto, c: Config, buf: bytes, p1: bytes, p2: bytes, events: seq<Event>)
    requires k.Valid() && Room(buf, |p1| + |p2|)
    ensures Follows(Run(k, c, buf, p1, p2, events), After(c, events))
  {
    hide Inv, Follows, Step, Next, Sized;
    if events == [] {
      assert Follows(Enqueue(buf, p1, p2), Progress(Waiting, 0, false)) by { Starts(buf, p1, p2); }
    } else {
      var before, e := events[..|events| - 1], events[|events| - 1];
      RunFollows(k, c, buf, p1, p2, before);
      SizedIn(k, c, p1 + p2, buf[2], Run(k, c, buf, p1, p2, before));
      StepFollows(k, c, Run(k, c, buf, p1, p2, before), After(c, before), e);
    }
  }

  lemma Starts(buf: bytes, p1: bytes, p2: bytes)
    requires Room(buf, |p1| + |p2|)
    ensures Follows(Enqueue(buf, p1, p2), Progress(Waiting, 0, false))
  {
  }

  /**
   * After any cycles and confirmations an entry is in transmission, done or removed exactly as the answers made it. Its
   * errors are exactly what the answers cost: one for a missing freshness, a transient fault, a cycle in transmission and
   * a failed transmission; the maximum for a fatal fault and a refusal from below. While it is in transmission, the
   * bytes read are the payload sealed with the freshness, and its truncated byte, of the one cycle that dated it.
   */
  lemma SendsExactly(k: Crypto, c: Config, buf: bytes, p1: bytes, p2: bytes, events: seq<Event>)
    requires k.Valid() && Room(buf, |p1| + |p2|)
    ensures var s, p := Run(k, c, buf, p1, p2, events), After(c, events);
            && s.err == p.err && (s.dropped <==> p.removed) && (s.q == TransDone <==> p.stage.Sent?)
            && (s.inProgress <==> p.stage.Running? && !p.removed)
            && (p.stage.Running? ==> CHANID_LEN + s.len <= |s.buf|
                                     && OnWire(s) == Wire(k, c, p1 + p2, buf[2], p.stage.f.value, p.stage.f.trunc))
  {
    hide Run, After, Wire;
    RunFollows(k, c, buf, p1, p2, events);
  }
}
