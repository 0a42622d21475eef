/**
 * What a receiver makes of arbitrary bytes. A received message is read off its own bytes and the answers of freshness
 * management and the crypto services: it reaches the application only if its last three bytes are the code over channel
 * id, message and freshness, and then with exactly the content that they authenticate.
 */
module AnchorComAuthentic {
  import opened Bytes
  import opened AnchorComFormat
  import T = AnchorComTx
  import R = AnchorComRx
  import X = AnchorComRxQueue
  import E = AnchorComEndToEnd

  // ----- A message and its answers ------------------------------------------------------------------------

  /** All but the trailer. */
  function Signed(wire: bytes): bytes
    requires PREFIX_LEN + APPEND_LEN <= |wire|
  {
    wire[..|wire| - APPEND_LEN]
  }

  /** The last three bytes are the code over the channel id, the message and this freshness. */
  predicate Genuine(k: Crypto, m: R.Message, wire: bytes, f: T.Fresh)
    requires PREFIX_LEN + APPEND_LEN <= |wire|
  {
    wire[|wire| - CMAC_LEN..] == k.mac([m.chanId] + Signed(wire) + f)
  }

  /** What the message says: its body, decrypted and without the padding that its second byte counts. */
  function Content(k: Crypto, m: R.Message, wire: bytes, f: T.Fresh): bytes
    requires k.Valid() && PREFIX_LEN + APPEND_LEN <= |wire|
  {
    var body := Signed(wire)[PREFIX_LEN..];
    if !m.encrypt then body
    else
      var padding := (wire[1] % 16) as nat;
      if padding <= |body| then k.dec(body, f)[..|body| - padding] else []
  }

  /** How far a message has come, with the freshness it was given. */
  datatype Stage = Unread | Dated(f: T.Fresh) | Proven(f: T.Fresh) | Opened(f: T.Fresh)

  datatype Progress = Progress(stage: Stage, err: nat, handed: Option<bytes>)

  const START: Progress := Progress(Unread, 0, None)

  /** Freshness is asked for until it is found, for a message of a known id. */
  function Date(c: R.Config, wire: bytes, p: Progress, env: R.Env): Progress
    requires wire != []
  {
    if !p.stage.Unread? then p
    else if wire[0] in c.messages && env.freshness.Some? then p.(stage := Dated(env.freshness.value))
    else p.(err := p.err + 1)
  }

  function Costs(c: R.Config, answer: Csm): nat {
    if answer == CsmFatal then c.maxRetry else 1
  }

  function Prove(k: Crypto, c: R.Config, wire: bytes, p: Progress, env: R.Env): Progress
    requires PREFIX_LEN + APPEND_LEN <= |wire| && (p.stage.Unread? || wire[0] in c.messages)
  {
    if !p.stage.Dated? then p
    else if env.verify == CsmOk && Genuine(k, c.messages[wire[0]], wire, p.stage.f) then p.(stage := Proven(p.stage.f))
    else p.(err := p.err + Costs(c, env.verify))
  }

  function Open(c: R.Config, wire: bytes, p: Progress, env: R.Env): Progress
    requires wire != [] && (p.stage.Unread? || wire[0] in c.messages)
  {
    if !p.stage.Proven? then p
    else if c.messages[wire[0]].encrypt && env.decrypt != CsmOk then p.(err := p.err + Costs(c, env.decrypt))
    else p.(stage := Opened(p.stage.f))
  }

  function Hand(k: Crypto, c: R.Config, wire: bytes, p: Progress): Progress
    requires k.Valid() && PREFIX_LEN + APPEND_LEN <= |wire| && (p.stage.Unread? || wire[0] in c.messages)
  {
    if !p.stage.Opened? || p.handed.Some? then p
    else
      var m := c.messages[wire[0]];
      if m.hasIndication then p.(handed := Some(Content(k, m, wire, p.stage.f))) else p.(err := p.err + c.maxRetry)
  }

  /** One cycle. */
  function Next(k: Crypto, c: R.Config, wire: bytes, p: Progress, env: R.Env): (p': Progress)
    requires k.Valid() && PREFIX_LEN + APPEND_LEN <= |wire| && (p.stage.Unread? || wire[0] in c.messages)
    ensures p'.stage.Unread? || wire[0] in c.messages
  {
    Hand(k, c, wire, Open(c, wire, Prove(k, c, wire, Date(c, wire, p, env), env), env))
  }

  /** After the cycles with these answers. */
  function After(k: Crypto, c: R.Config, wire: bytes, envs: seq<R.Env>): (p: Progress)
    requires k.Valid() && PREFIX_LEN + APPEND_LEN <= |wire|
    ensures p.stage.Unread? || wire[0] in c.messages
  {
    if envs == [] then START else Next(k, c, wire, After(k, c, wire, envs[..|envs| - 1]), envs[|envs| - 1])
  }

  // ----- The pipeline does exactly this -----------------------------------------------------------------

  /** Where the freshness stands in the buffer of a dated message. */
  function FreshAt(wire: bytes): nat
    requires PREFIX_LEN + APPEND_LEN <= |wire|
  {
    CHANID_LEN + |wire| - APPEND_LEN
  }

  /** The buffer holds channel id, message and freshness. */
  ghost predicate Laid(buf: bytes, m: R.Message, wire: bytes, f: T.Fresh)
    requires PREFIX_LEN + APPEND_LEN <= |wire|
  {
    [m.chanId] + Signed(wire) + f <= buf
  }

  /** The pipeline entry stands where the message does. */
  ghost predicate Follows(k: Crypto, c: R.Config, wire: bytes, e: R.State, p: Progress)
  {
    && k.Valid() && PREFIX_LEN + APPEND_LEN <= |wire| && |wire| + 5 <= |e.buf| <= R.MAX_BUFFER && e.err == p.err
    && (e.delivered == if p.handed.Some? then [p.handed.value] else [])
    && (e.q == R.ProcessDone <==> p.handed.Some?)
    && match p.stage
       case Unread => e.q == R.Queued && p.handed.None? && e.dataLen == CHANID_LEN + |wire| && e.buf[CHANID_LEN..e.dataLen] == wire
       case Dated(f) =>
         && wire[0] in c.messages && e.message == c.messages[wire[0]] && p.handed.None?
         && e.q == R.CmacReady && e.dataLen == FreshAt(wire) + FRESH_LEN && Laid(e.buf, e.message, wire, f)
         && e.cmac == wire[|wire| - CMAC_LEN..]
       case Proven(f) =>
         && wire[0] in c.messages && e.message == c.messages[wire[0]] && p.handed.None?
         && e.q == R.DecReady && e.message.encrypt && e.dataLen == FreshAt(wire) && Laid(e.buf, e.message, wire, f)
       case Opened(f) =>
         && wire[0] in c.messages && e.message == c.messages[wire[0]] && e.q in {R.ProcessReady, R.ProcessDone}
         && (p.handed.None? ==> R.Slice(e.buf, (e.dataLen - HEADER_LEN) % R.UINT16) == Content(k, e.message, wire, f))
  }

  lemma StartsFollowing(k: Crypto, c: R.Config, buf: bytes, wire: bytes)
    requires k.Valid() && R.Room(buf, wire)
    ensures Follows(k, c, wire, R.Enqueue(buf, wire), START)
  {
  }

  lemma FollowsSized(k: Crypto, c: R.Config, wire: bytes, e: R.State, p: Progress)
    ensures Follows(k, c, wire, e, p) ==>
              k.Valid() && PREFIX_LEN + APPEND_LEN <= |wire| && R.Sized(e) && (p.stage.Unread? || wire[0] in c.messages)
  {
  }

  lemma PrepareFollows(k: Crypto, c: R.Config, wire: bytes, e: R.State, p: Progress, env: R.Env)
    requires Follows(k, c, wire, e, p)
    ensures R.Sized(e) && Follows(k, c, wire, R.Prepare(c, e, env), Date(c, wire, p, env))
  {
    hide Write;
    FollowsSized(k, c, wire, e, p);
    if p.stage.Unread? && wire[0] in c.messages && env.freshness.Some? {
      var at := FreshAt(wire);
      assert e.buf[CHANID_LEN] == wire[0];
      var e' := R.Prepare(c, e, env);
      R.SliceOfSlice(e.buf, CHANID_LEN, e.dataLen, 0, |wire| - APPEND_LEN);
      R.SliceOfSlice(e.buf, CHANID_LEN, e.dataLen, |wire| - CMAC_LEN, |wire|);
      var b := e.buf[0 := e'.message.chanId];
      assert e'.buf[..CHANID_LEN] == e'.buf[..at][..CHANID_LEN] == b[..CHANID_LEN] == [e'.message.chanId];
      assert e'.buf[CHANID_LEN..at] == e'.buf[..at][CHANID_LEN..] == b[..at][CHANID_LEN..] == Signed(wire);
      T.PrefixOf(e'.buf, [e'.message.chanId], Signed(wire), env.freshness.value);
    }
  }

  /** A proven plain message needs no opening. */
  function Plain(c: R.Config, wire: bytes, p: Progress): Progress
    requires wire != [] && (p.stage.Unread? || wire[0] in c.messages)
  {
    if p.stage.Proven? && !c.messages[wire[0]].encrypt then p.(stage := Opened(p.stage.f)) else p
  }

  /** The signed part in the buffer is the byte string under the code. */
  lemma LaidParts(buf: bytes, m: R.Message, wire: bytes, f: T.Fresh)
    requires PREFIX_LEN + APPEND_LEN <= |wire| && Laid(buf, m, wire, f)
    ensures var at := FreshAt(wire);
            && at + FRESH_LEN <= |buf| && buf[..at + FRESH_LEN] == [m.chanId] + Signed(wire) + f && buf[at..at + FRESH_LEN] == f
            && buf[HEADER_LEN..at] == Signed(wire)[PREFIX_LEN..] && buf[2] == wire[1]
  {
    var at := FreshAt(wire);
    T.PartsOf(buf, [m.chanId], Signed(wire), f);
    assert buf[..at + FRESH_LEN] == [m.chanId] + Signed(wire) + f;
    R.SliceOfSlice(buf, CHANID_LEN, at, PREFIX_LEN, at - CHANID_LEN);
    assert buf[2] == buf[CHANID_LEN..at][1];
  }

  lemma VerifyFollows(k: Crypto, c: R.Config, wire: bytes, e: R.State, p: Progress, env: R.Env)
    requires Follows(k, c, wire, e, p)
    ensures R.Sized(e) && (p.stage.Unread? || wire[0] in c.messages)
    ensures Follows(k, c, wire, R.Part1(k, c, e, env), Plain(c, wire, Prove(k, c, wire, Date(c, wire, p, env), env)))
  {
    hide R.Prepare, Laid;
    FollowsSized(k, c, wire, e, p);
    PrepareFollows(k, c, wire, e, p, env);
    var e1, p1 := R.Prepare(c, e, env), Date(c, wire, p, env);
    if p1.stage.Dated? {
      LaidParts(e1.buf, e1.message, wire, p1.stage.f);
    }
  }

  /** The length after the padding was taken off; more padding than body makes it start over at the end of its range. */
  lemma Trimmed(at: nat, padding: nat)
    requires HEADER_LEN <= at < R.UINT16 && padding < 16
    ensures var n := (((at - padding) % R.UINT16) - HEADER_LEN) % R.UINT16;
            if padding <= at - HEADER_LEN then n == at - HEADER_LEN - padding else HEADER_LEN + n > R.MAX_BUFFER
  {
  }

  /** The plain text in the buffer, cut by its padding. */
  lemma SliceIs(buf: bytes, at: nat, plain: bytes, padding: nat)
    requires HEADER_LEN <= at <= |buf| <= R.MAX_BUFFER && padding < 16 && buf[HEADER_LEN..at] == plain
    ensures R.Slice(buf, (((at - padding) % R.UINT16) - HEADER_LEN) % R.UINT16)
         == if padding <= |plain| then plain[..|plain| - padding] else []
  {
    Trimmed(at, padding);
    if padding <= |plain| { R.SliceOfSlice(buf, HEADER_LEN, at, 0, |plain| - padding); }
  }

  /** Decryption, and the padding taken off. */
  lemma DecryptFollows(k: Crypto, c: R.Config, wire: bytes, e: R.State, p: Progress)
    requires Follows(k, c, wire, e, p) && p.stage.Proven?
    ensures R.Sized(e) && Follows(k, c, wire, R.Decrypt(k, e), p.(stage := Opened(p.stage.f)))
  {
    hide Write, Laid, R.Slice;
    LaidParts(e.buf, e.message, wire, p.stage.f);
    var e', body := R.Decrypt(k, e), Signed(wire)[PREFIX_LEN..];
    SliceIs(e'.buf, FreshAt(wire), k.dec(body, p.stage.f), (wire[1] % 16) as nat);
  }

  lemma DecryptsFollow(k: Crypto, c: R.Config, wire: bytes, e: R.State, p: Progress, env: R.Env)
    requires Follows(k, c, wire, e, p)
    ensures R.Sized(e) && (p.stage.Unread? || wire[0] in c.messages)
    ensures Follows(k, c, wire, R.Part2(k, c, e, env), Open(c, wire, Plain(c, wire, p), env))
  {
    hide R.Decrypt, Laid;
    FollowsSized(k, c, wire, e, p);
    if p.stage.Proven? { DecryptFollows(k, c, wire, e, p); }
  }

  lemma HandFollows(k: Crypto, c: R.Config, wire: bytes, e: R.State, p: Progress)
    requires Follows(k, c, wire, e, p) && (p.stage.Unread? || wire[0] in c.messages)
    ensures Follows(k, c, wire, R.Part3(c, e), Hand(k, c, wire, p))
  {
    hide Laid, R.Slice, Content;
  }

  /** One cycle of the pipeline is one step of the message, whatever bytes were received. */
  lemma CycleFollows(k: Crypto, c: R.Config, wire: bytes, e: R.State, p: Progress, env: R.Env)
    requires Follows(k, c, wire, e, p)
    ensures R.Sized(e) && (p.stage.Unread? || wire[0] in c.messages)
    ensures Follows(k, c, wire, R.Cycle(k, c, e, env), Next(k, c, wire, p, env))
  {
    hide R.Part1, R.Part2, R.Part3, Follows, Hand;
    FollowsSized(k, c, wire, e, p);
    VerifyFollows(k, c, wire, e, p, env);
    var e1, p1 := R.Part1(k, c, e, env), Prove(k, c, wire, Date(c, wire, p, env), env);
    FollowsSized(k, c, wire, e1, Plain(c, wire, p1));
    DecryptsFollow(k, c, wire, e1, Plain(c, wire, p1), env);
    HandFollows(k, c, wire, R.Part2(k, c, e1, env), Open(c, wire, Plain(c, wire, Plain(c, wire, p1)), env));
  }

  // ----- Read off the answers -----------------------------------------------------------------------------

  /** The first freshness that was found for a known message is f, in cycle i. */
  predicate DatedBy(c: R.Config, wire: bytes, envs: seq<R.Env>, i: nat, f: T.Fresh)
    requires wire != []
  {
    wire[0] in c.messages && i < |envs| && envs[i].freshness == Some(f) && forall h :: 0 <= h < i ==> envs[h].freshness.None?
  }

  /** In cycle j or later than its dating, the service verified and the code is genuine. */
  predicate ProvenBy(k: Crypto, c: R.Config, wire: bytes, envs: seq<R.Env>, i: nat, j: nat, f: T.Fresh)
    requires PREFIX_LEN + APPEND_LEN <= |wire|
  {
    DatedBy(c, wire, envs, i, f) && i <= j < |envs| && envs[j].verify == CsmOk && Genuine(k, c.messages[wire[0]], wire, f)
  }

  /** In cycle o, not before its proof, the message was plain or decrypted. */
  predicate OpenedBy(k: Crypto, c: R.Config, wire: bytes, envs: seq<R.Env>, i: nat, j: nat, o: nat, f: T.Fresh)
    requires PREFIX_LEN + APPEND_LEN <= |wire|
  {
    ProvenBy(k, c, wire, envs, i, j, f) && j <= o < |envs| && (c.messages[wire[0]].encrypt ==> envs[o].decrypt == CsmOk)
  }

  lemma {:induction false} DatedExactly(k: Crypto, c: R.Config, wire: bytes, envs: seq<R.Env>, f: T.Fresh)
    requires k.Valid() && PREFIX_LEN + APPEND_LEN <= |wire|
    ensures !After(k, c, wire, envs).stage.Unread? && After(k, c, wire, envs).stage.f == f <==> exists i: nat :: DatedBy(c, wire, envs, i, f)
    ensures After(k, c, wire, envs).stage.Unread? <==> forall i :: 0 <= i < |envs| && wire[0] in c.messages ==> envs[i].freshness.None?
  {
    hide Genuine, Content;
    if envs != [] {
      var n := |envs| - 1;
      var before := envs[..n];
      DatedExactly(k, c, wire, before, f);
      forall i: nat | i < n ensures DatedBy(c, wire, before, i, f) <==> DatedBy(c, wire, envs, i, f) {
        assert forall h :: 0 <= h <= i ==> before[h] == envs[h];
      }
      assert forall h :: 0 <= h < n ==> before[h] == envs[h];
      if DatedBy(c, wire, envs, n, f) { assert After(k, c, wire, before).stage.Unread?; }
      if After(k, c, wire, before).stage.Unread? && envs[n].freshness == Some(f) && wire[0] in c.messages {
        assert DatedBy(c, wire, envs, n, f);
      }
    }
  }

  predicate IsProven(p: Progress) {
    p.stage.Proven? || p.stage.Opened?
  }

  /** What one cycle adds. */
  lemma NextStage(k: Crypto, c: R.Config, wire: bytes, p: Progress, env: R.Env)
    requires k.Valid() && PREFIX_LEN + APPEND_LEN <= |wire| && (p.stage.Unread? || wire[0] in c.messages)
    ensures var p' := Next(k, c, wire, p, env);
            && (IsProven(p') <==>
                  IsProven(p) || (!p'.stage.Unread? && env.verify == CsmOk && Genuine(k, c.messages[wire[0]], wire, p'.stage.f)))
            && (p'.stage.Opened? <==>
                  p.stage.Opened? || (IsProven(p') && (c.messages[wire[0]].encrypt ==> env.decrypt == CsmOk)))
            && (!p.stage.Unread? ==> !p'.stage.Unread? && p'.stage.f == p.stage.f)
  {
    hide Genuine, Content;
  }

  /** A proof in an earlier cycle is one in all cycles. */
  lemma ProofStays(k: Crypto, c: R.Config, wire: bytes, envs: seq<R.Env>, i: nat, j: nat, f: T.Fresh)
    requires PREFIX_LEN + APPEND_LEN <= |wire| && envs != []
    ensures j < |envs| - 1 ==> (ProvenBy(k, c, wire, envs[..|envs| - 1], i, j, f) <==> ProvenBy(k, c, wire, envs, i, j, f))
  {
    hide Genuine;
    var before := envs[..|envs| - 1];
    assert forall h :: 0 <= h < |before| ==> before[h] == envs[h];
  }

  /** A message is proven if and only if the service verified it in or after the cycle that dated it, and its code is genuine. */
  lemma {:induction false} ProvenExactly(k: Crypto, c: R.Config, wire: bytes, envs: seq<R.Env>, f: T.Fresh)
    requires k.Valid() && PREFIX_LEN + APPEND_LEN <= |wire|
    ensures IsProven(After(k, c, wire, envs)) && After(k, c, wire, envs).stage.f == f
       <==> exists i: nat, j: nat :: ProvenBy(k, c, wire, envs, i, j, f)
  {
    hide Genuine, Content, Next, DatedBy;
    if envs != [] {
      var n := |envs| - 1;
      var before := envs[..n];
      var p, p' := After(k, c, wire, before), After(k, c, wire, envs);
      ProvenExactly(k, c, wire, before, f);
      NextStage(k, c, wire, p, envs[n]);
      DatedExactly(k, c, wire, envs, f);
      forall i: nat, j: nat | j < n ensures ProvenBy(k, c, wire, before, i, j, f) <==> ProvenBy(k, c, wire, envs, i, j, f) {
        ProofStays(k, c, wire, envs, i, j, f);
      }
      if IsProven(p') && p'.stage.f == f {
        if IsProven(p) {
          var i: nat, j: nat :| ProvenBy(k, c, wire, before, i, j, f);
          assert ProvenBy(k, c, wire, envs, i, j, f);
        } else {
          var i: nat :| DatedBy(c, wire, envs, i, f);
          DatedInside(c, wire, envs, i, f);
          assert ProvenBy(k, c, wire, envs, i, n, f);
        }
      }
      if i: nat, j: nat :| ProvenBy(k, c, wire, envs, i, j, f) {
        assert j < n ==> ProvenBy(k, c, wire, before, i, j, f);
      }
    }
  }

  lemma DatedInside(c: R.Config, wire: bytes, envs: seq<R.Env>, i: nat, f: T.Fresh)
    requires wire != [] && DatedBy(c, wire, envs, i, f)
    ensures i < |envs| && wire[0] in c.messages
  {
  }

  lemma {:induction false} OpenedExactly(k: Crypto, c: R.Config, wire: bytes, envs: seq<R.Env>, f: T.Fresh)
    requires k.Valid() && PREFIX_LEN + APPEND_LEN <= |wire|
    ensures After(k, c, wire, envs).stage.Opened? && After(k, c, wire, envs).stage.f == f
       <==> exists i: nat, j: nat, o: nat :: OpenedBy(k, c, wire, envs, i, j, o, f)
  {
    hide Genuine, Content, Next, DatedBy;
    if envs != [] {
      var n := |envs| - 1;
      var before := envs[..n];
      var p, p' := After(k, c, wire, before), After(k, c, wire, envs);
      OpenedExactly(k, c, wire, before, f);
      NextStage(k, c, wire, p, envs[n]);
      ProvenExactly(k, c, wire, envs, f);
      forall i: nat, j: nat, o: nat | o < n
        ensures OpenedBy(k, c, wire, before, i, j, o, f) <==> OpenedBy(k, c, wire, envs, i, j, o, f)
      {
        ProofStays(k, c, wire, envs, i, j, f);
      }
      if p'.stage.Opened? && p'.stage.f == f {
        if p.stage.Opened? {
          var i: nat, j: nat, o: nat :| OpenedBy(k, c, wire, before, i, j, o, f);
          assert OpenedBy(k, c, wire, envs, i, j, o, f);
        } else {
          var i: nat, j: nat :| ProvenBy(k, c, wire, envs, i, j, f);
          ProvenInside(k, c, wire, envs, i, j, f);
          assert OpenedBy(k, c, wire, envs, i, j, n, f);
        }
      }
      if i: nat, j: nat, o: nat :| OpenedBy(k, c, wire, envs, i, j, o, f) {
        ProvenInside(k, c, wire, envs, i, j, f);
        assert o < n ==> OpenedBy(k, c, wire, before, i, j, o, f);
      }
    }
  }

  lemma ProvenInside(k: Crypto, c: R.Config, wire: bytes, envs: seq<R.Env>, i: nat, j: nat, f: T.Fresh)
    requires PREFIX_LEN + APPEND_LEN <= |wire| && ProvenBy(k, c, wire, envs, i, j, f)
    ensures j < |envs| && wire[0] in c.messages
  {
  }

  /** An opened message is handed over if an application listens, with its content. */
  lemma {:induction false} HandedIsContent(k: Crypto, c: R.Config, wire: bytes, envs: seq<R.Env>)
    requires k.Valid() && PREFIX_LEN + APPEND_LEN <= |wire|
    ensures var p := After(k, c, wire, envs);
            && (p.handed.Some? <==> p.stage.Opened? && c.messages[wire[0]].hasIndication)
            && (p.handed.Some? ==> p.handed.value == Content(k, c.messages[wire[0]], wire, p.stage.f))
  {
    hide Genuine, Content;
    if envs != [] { HandedIsContent(k, c, wire, envs[..|envs| - 1]); }
  }

  /**
   * A message is handed over with payload x if and only if an application listens, freshness was found for it, in or
   * after that cycle the service verified it and its last bytes are the code under that freshness, in or after that
   * cycle it was decrypted if it is encrypted, and x is its content.
   */
  lemma HandedExactly(k: Crypto, c: R.Config, wire: bytes, envs: seq<R.Env>, x: bytes)
    requires k.Valid() && PREFIX_LEN + APPEND_LEN <= |wire|
    ensures After(k, c, wire, envs).handed == Some(x)
       <==> exists i: nat, j: nat, o: nat, f ::
              OpenedBy(k, c, wire, envs, i, j, o, f) && c.messages[wire[0]].hasIndication && x == Content(k, c.messages[wire[0]], wire, f)
  {
    hide Genuine, Content, OpenedBy, After;
    HandedIsContent(k, c, wire, envs);
    var p := After(k, c, wire, envs);
    if p.handed == Some(x) { OpenedExactly(k, c, wire, envs, p.stage.f); }
    forall i: nat, j: nat, o: nat, f | OpenedBy(k, c, wire, envs, i, j, o, f)
      ensures p.stage.Opened? && p.stage.f == f && wire[0] in c.messages
    {
      OpenedExactly(k, c, wire, envs, f);
    }
  }

  // ----- Over runs of the receive queue -------------------------------------------------------------------

  /** The answers given so far to the message at the head of the queue. */
  ghost function HeadEnvs(g: X.Config, n: nat, events: seq<X.Event>): seq<R.Env>
    requires g.Valid()
  {
    if events == [] then []
    else
      var before, e := events[..|events| - 1], events[|events| - 1];
      if e.EIndicate? then HeadEnvs(g, n, before)
      else if X.Run(g, n, before).queue == [] || X.Run(g, n, events).finished > X.Run(g, n, before).finished then []
      else HeadEnvs(g, n, before) + [e.env]
  }

  /** The head entry stands where its bytes and answers put it. */
  ghost predicate HeadFollows(g: X.Config, s: X.Peer, envs: seq<R.Env>) {
    && |s.main| == |s.temp| && (s.queue == [] ==> envs == [])
    && (s.queue != [] ==>
          && s.queue[0].channel < |s.main| && s.finished < |s.received|
          && g.k.Valid() && PREFIX_LEN + APPEND_LEN <= |s.received[s.finished]|
          && Follows(g.k, g.c, s.received[s.finished], X.Owned(s.main, s.temp, s.queue[0]).entry,
                     After(g.k, g.c, s.received[s.finished], envs)))
  }

  /** A message that has just come to the head has not been worked on. */
  lemma UntouchedFollows(g: X.Config, e: R.State, wire: bytes)
    requires g.k.Valid() && X.Working(e) && X.Intact(e, wire) && |e.buf| == g.bufLen <= R.MAX_BUFFER
    ensures PREFIX_LEN + APPEND_LEN <= |wire| && Follows(g.k, g.c, wire, e, After(g.k, g.c, wire, []))
  {
  }

  /** What the queue says about the messages behind the head, and about its length. */
  lemma QueueFacts(g: X.Config, s: X.Peer)
    requires X.Inv(g, s)
    ensures g.k.Valid() && g.bufLen <= R.MAX_BUFFER && |s.main| == |s.temp| && |s.received| == s.finished + |s.queue|
    ensures forall i :: 0 <= i < |s.queue| ==> s.queue[i].channel < |s.main|
    ensures forall i :: 0 < i < |s.queue| ==>
              var e := X.Owned(s.main, s.temp, s.queue[i]).entry;
              X.Working(e) && X.Intact(e, s.received[s.finished + i]) && |e.buf| == g.bufLen
  {
    hide X.Working, X.Intact, X.Owned;
  }

  lemma IndicateStep(g: X.Config, s: X.Peer, channel: nat, wire: bytes, envs: seq<R.Env>)
    requires X.Inv(g, s) && HeadFollows(g, s, envs)
    ensures HeadFollows(g, X.Indicate(g, s, channel, wire), envs)
  {
    hide X.Inv, X.Indicate, X.Owned, Follows, After;
    QueueFacts(g, s);
    E.IndicateEffect(g, s, channel, wire);
    var s' := X.Indicate(g, s, channel, wire);
    if s'.queue != s.queue {
      if s.queue == [] {
        var buf :| R.Room(buf, wire) && X.Owned(s'.main, s'.temp, s'.queue[0]).entry == R.Enqueue(buf, wire);
        StartsFollowing(g.k, g.c, buf, wire);
        assert After(g.k, g.c, wire, []) == START by { AfterNone(g.k, g.c, wire); }
      } else {
        assert s'.queue[..|s.queue|][0] == s.queue[0];
      }
    }
  }

  lemma AfterNone(k: Crypto, c: R.Config, wire: bytes)
    requires k.Valid() && PREFIX_LEN + APPEND_LEN <= |wire|
    ensures After(k, c, wire, []) == START
  {
  }

  /** A cycle moves the head on by one answer; a finished head hands over exactly what its message does. */
  lemma CycleStep(g: X.Config, s: X.Peer, env: R.Env, envs: seq<R.Env>)
    requires X.Inv(g, s) && HeadFollows(g, s, envs) && s.queue != []
    ensures var s', p := X.Cycle(g, s, env), After(g.k, g.c, s.received[s.finished], envs + [env]);
            && s'.received == s.received
            && s'.delivered == s.delivered + (if p.handed.Some? then [p.handed.value] else [])
            && s'.places == s.places + (if p.handed.Some? then [s.finished] else [])
            && |s'.main| == |s.main|
            && if p.handed.None? && p.err < g.c.maxRetry
               then s'.queue == s.queue && s'.finished == s.finished && HeadFollows(g, s', envs + [env])
               else s'.queue == s.queue[1..] && s'.finished == s.finished + 1 && HeadFollows(g, s', [])
  {
    hide X.Inv, X.Cycle, X.Owned, X.Working, X.Intact, R.Cycle, After, Next;
    QueueFacts(g, s);
    E.CycleEffect(g, s, env);
    var wire, e := s.received[s.finished], X.Owned(s.main, s.temp, s.queue[0]).entry;
    CycleFollows(g.k, g.c, wire, e, After(g.k, g.c, wire, envs), env);
    AfterOne(g.k, g.c, wire, envs, env);
    X.CycleKeeps(g, s, env);
    var s' := X.Cycle(g, s, env);
    FinishedExactly(g, s, env);
    hide Follows;
    if s'.finished != s.finished && |s.queue| > 1 {
      assert s'.queue[0] == s.queue[1];
      UntouchedFollows(g, X.Owned(s.main, s.temp, s.queue[1]).entry, s.received[s.finished + 1]);
    }
  }

  lemma AfterOne(k: Crypto, c: R.Config, wire: bytes, envs: seq<R.Env>, env: R.Env)
    requires k.Valid() && PREFIX_LEN + APPEND_LEN <= |wire|
    ensures After(k, c, wire, envs + [env]) == Next(k, c, wire, After(k, c, wire, envs), env)
  {
    assert (envs + [env])[..|envs|] == envs;
  }

  /** The head leaves the queue exactly when it is handed over or its errors reach the maximum. */
  lemma FinishedExactly(g: X.Config, s: X.Peer, env: R.Env)
    requires X.Inv(g, s) && s.queue != []
    ensures |s.main| == |s.temp| && s.queue[0].channel < |s.main| && R.Sized(X.Owned(s.main, s.temp, s.queue[0]).entry) && g.k.Valid()
    ensures var e := R.Cycle(g.k, g.c, X.Owned(s.main, s.temp, s.queue[0]).entry, env);
            X.Cycle(g, s, env).finished == if e.err >= g.c.maxRetry || e.q == R.ProcessDone then s.finished + 1 else s.finished
  {
    hide R.Cycle;
    X.HeadOwned(g, s);
  }

  lemma NotDone(g: X.Config, s: X.Peer)
    requires X.Inv(g, s) && s.queue != []
    ensures |s.main| == |s.temp| && s.queue[0].channel < |s.main|
    ensures X.Owned(s.main, s.temp, s.queue[0]).entry.q != R.ProcessDone
  {
    X.HeadOwned(g, s);
  }

  lemma {:induction false} RunFollows(g: X.Config, n: nat, events: seq<X.Event>)
    requires g.Valid()
    ensures HeadFollows(g, X.Run(g, n, events), HeadEnvs(g, n, events))
  {
    hide X.Inv, X.Indicate, X.Cycle, Follows, After;
    if events != [] {
      var before, e := events[..|events| - 1], events[|events| - 1];
      RunFollows(g, n, before);
      var s := X.Run(g, n, before);
      match e
      case EIndicate(channel, wire) => IndicateStep(g, s, channel, wire, HeadEnvs(g, n, before));
      case ECycle(env) =>
        if s.queue == [] {
          E.NoHead(g, s, env);
        } else {
          CycleStep(g, s, env, HeadEnvs(g, n, before));
        }
    } else {
      assert X.Run(g, n, []) == X.Init(g, n);
    }
  }

  /** In event j the message at the head was finished with, and handed over as payload x. */
  ghost predicate HandedAt(g: X.Config, n: nat, events: seq<X.Event>, j: nat, place: nat, x: bytes)
    requires g.Valid()
  {
    && j < |events| && events[j].ECycle?
    && var s := X.Run(g, n, events[..j]);
       && s.queue != [] && s.finished == place < |s.received| && PREFIX_LEN + APPEND_LEN <= |s.received[place]|
       && After(g.k, g.c, s.received[place], HeadEnvs(g, n, events[..j]) + [events[j].env]).handed == Some(x)
  }

  ghost predicate WasHanded(g: X.Config, n: nat, events: seq<X.Event>, place: nat, x: bytes)
    requires g.Valid()
  {
    exists j: nat :: HandedAt(g, n, events, j, place, x)
  }

  /** Every payload handed over in a run was handed over by the message in its place. */
  ghost predicate AllHanded(g: X.Config, n: nat, events: seq<X.Event>)
    requires g.Valid()
  {
    var s := X.Run(g, n, events);
    |s.places| == |s.delivered|
    && forall d :: 0 <= d < |s.delivered| ==> WasHanded(g, n, events, s.places[d], s.delivered[d])
  }

  lemma HandedStays(g: X.Config, n: nat, events: seq<X.Event>, j: nat, place: nat, x: bytes)
    requires g.Valid() && events != [] && HandedAt(g, n, events[..|events| - 1], j, place, x)
    ensures HandedAt(g, n, events, j, place, x)
  {
    hide After, HeadEnvs, X.Run;
    var before := events[..|events| - 1];
    assert before[..j] == events[..j] && before[j] == events[j];
  }

  lemma SameDeliveries(g: X.Config, s: X.Peer, channel: nat, wire: bytes)
    requires X.Inv(g, s)
    ensures var s' := X.Indicate(g, s, channel, wire); s'.delivered == s.delivered && s'.places == s.places
  {
    hide X.Inv;
    E.IndicateEffect(g, s, channel, wire);
  }

  lemma PlacesMatch(g: X.Config, s: X.Peer)
    requires X.Inv(g, s)
    ensures |s.places| == |s.delivered|
  {
  }

  lemma AllStay(g: X.Config, n: nat, events: seq<X.Event>)
    requires g.Valid() && events != [] && AllHanded(g, n, events[..|events| - 1])
    ensures var s := X.Run(g, n, events[..|events| - 1]);
            forall d :: 0 <= d < |s.delivered| ==> WasHanded(g, n, events, s.places[d], s.delivered[d])
  {
    hide X.Inv, X.Run, After, HeadEnvs, HandedAt;
    var before := events[..|events| - 1];
    var s := X.Run(g, n, before);
    forall d | 0 <= d < |s.delivered| ensures WasHanded(g, n, events, s.places[d], s.delivered[d]) {
      var j: nat :| HandedAt(g, n, before, j, s.places[d], s.delivered[d]);
      HandedStays(g, n, events, j, s.places[d], s.delivered[d]);
    }
  }

  lemma {:induction false} RunHands(g: X.Config, n: nat, events: seq<X.Event>)
    requires g.Valid()
    ensures AllHanded(g, n, events)
  {
    hide X.Inv, X.Indicate, X.Cycle, Follows, After, HeadEnvs, HandedAt;
    var s' := X.Run(g, n, events);
    PlacesMatch(g, s');
    if events == [] {
      assert X.Run(g, n, []) == X.Init(g, n);
    } else {
      var m := |events| - 1;
      var before, e := events[..m], events[m];
      RunHands(g, n, before);
      RunFollows(g, n, before);
      var s, envs := X.Run(g, n, before), HeadEnvs(g, n, before);
      AllStay(g, n, events);
      match e
      case EIndicate(channel, wire) => SameDeliveries(g, s, channel, wire);
      case ECycle(env) =>
        if s.queue == [] {
          E.NoHead(g, s, env);
        } else {
          CycleStep(g, s, env, envs);
          var p := After(g.k, g.c, s.received[s.finished], envs + [env]);
          if p.handed.Some? {
            HandedNow(g, n, events, p.handed.value);
            assert WasHanded(g, n, events, s.finished, p.handed.value);
          }
        }
    }
  }

  lemma HandedNow(g: X.Config, n: nat, events: seq<X.Event>, x: bytes)
    requires g.Valid() && events != [] && events[|events| - 1].ECycle?
    requires var s := X.Run(g, n, events[..|events| - 1]);
             && s.queue != [] && s.finished < |s.received| && PREFIX_LEN + APPEND_LEN <= |s.received[s.finished]|
             && After(g.k, g.c, s.received[s.finished], HeadEnvs(g, n, events[..|events| - 1]) + [events[|events| - 1].env]).handed == Some(x)
    ensures HandedAt(g, n, events, |events| - 1, X.Run(g, n, events[..|events| - 1]).finished, x)
  {
  }

  /** Payload x is the authenticated content of these bytes, received in this place, by the answers up to event j. */
  ghost predicate Authentic(g: X.Config, n: nat, events: seq<X.Event>, j: nat, place: nat, wire: bytes, x: bytes)
    requires g.Valid()
  {
    && j < |events| && events[j].ECycle? && PREFIX_LEN + APPEND_LEN <= |wire|
    && X.Run(g, n, events[..j]).queue != [] && X.Run(g, n, events[..j]).finished == place
    && IsAuthentic(g.k, g.c, wire, HeadEnvs(g, n, events[..j]) + [events[j].env], x)
  }

  lemma ReceivedStep(g: X.Config, s: X.Peer, channel: nat, wire: bytes, env: R.Env)
    requires X.Inv(g, s)
    ensures s.received <= X.Indicate(g, s, channel, wire).received && X.Cycle(g, s, env).received == s.received
  {
    hide X.Inv, X.Indicate, X.Cycle, R.Cycle;
    E.IndicateEffect(g, s, channel, wire);
    if s.queue == [] {
      E.NoHead(g, s, env);
    } else {
      E.CycleEffect(g, s, env);
    }
  }

  /** What was received stays on record. */
  lemma {:induction false} ReceivedStays(g: X.Config, n: nat, events: seq<X.Event>, j: nat)
    requires g.Valid() && j <= |events|
    ensures X.Run(g, n, events[..j]).received <= X.Run(g, n, events).received
  {
    hide X.Inv, X.Indicate, X.Cycle;
    if j == |events| {
      assert events[..j] == events;
    } else {
      var before, e := events[..|events| - 1], events[|events| - 1];
      ReceivedStays(g, n, before, j);
      assert before[..j] == events[..j];
      ReceivedStep(g, X.Run(g, n, before), if e.EIndicate? then e.channel else 0, if e.EIndicate? then e.wire else [],
                   if e.ECycle? then e.env else R.Env(None, CsmOk, CsmOk));
    }
  }

  /** The answers dated it, verified it and, if need be, decrypted it; its code is genuine; and it says x. */
  ghost predicate IsAuthentic(k: Crypto, c: R.Config, wire: bytes, envs: seq<R.Env>, x: bytes)
    requires k.Valid() && PREFIX_LEN + APPEND_LEN <= |wire|
  {
    exists i: nat, j: nat, o: nat, f ::
      OpenedBy(k, c, wire, envs, i, j, o, f) && c.messages[wire[0]].hasIndication && x == Content(k, c.messages[wire[0]], wire, f)
  }

  /**
   * In every run, whatever bytes arrive and whatever is answered: each payload handed to the application is the content
   * of the bytes received in its place, whose last three bytes are the code over channel id, message and a freshness
   * that was answered for it, verified in a cycle of its own.
   */
  lemma OnlyAuthentic(g: X.Config, n: nat, events: seq<X.Event>, d: nat)
    requires g.Valid() && d < |X.Run(g, n, events).delivered|
    ensures var s := X.Run(g, n, events);
            && d < |s.places| && s.places[d] < |s.received|
            && exists j: nat :: Authentic(g, n, events, j, s.places[d], s.received[s.places[d]], s.delivered[d])
  {
    hide X.Inv, X.Run, After, HeadEnvs, IsAuthentic;
    RunHands(g, n, events);
    var s := X.Run(g, n, events);
    var j: nat :| HandedAt(g, n, events, j, s.places[d], s.delivered[d]);
    var wire := X.Run(g, n, events[..j]).received[s.places[d]];
    ReceivedStays(g, n, events, j);
    MakesAuthentic(g.k, g.c, wire, HeadEnvs(g, n, events[..j]) + [events[j].env], s.delivered[d]);
    assert Authentic(g, n, events, j, s.places[d], wire, s.delivered[d]);
  }

  lemma MakesAuthentic(k: Crypto, c: R.Config, wire: bytes, envs: seq<R.Env>, x: bytes)
    requires k.Valid() && PREFIX_LEN + APPEND_LEN <= |wire|
    ensures After(k, c, wire, envs).handed == Some(x) <==> IsAuthentic(k, c, wire, envs, x)
  {
    hide After, Content, OpenedBy;
    HandedExactly(k, c, wire, envs, x);
  }

  /**
   * In every run the message at the head is past verification if and only if freshness was answered for it and, in or
   * after that cycle, the service verified it and its code is genuine; until then it stays queued or unverified.
   */
  lemma HeadProvenExactly(g: X.Config, n: nat, events: seq<X.Event>)
    requires g.Valid() && X.Run(g, n, events).queue != []
    ensures var s, envs := X.Run(g, n, events), HeadEnvs(g, n, events);
            && |s.main| == |s.temp| && s.queue[0].channel < |s.main| && s.finished < |s.received|
            && PREFIX_LEN + APPEND_LEN <= |s.received[s.finished]|
            && (X.Owned(s.main, s.temp, s.queue[0]).entry.q in {R.DecReady, R.ProcessReady}
                <==> exists i: nat, j: nat, f :: ProvenBy(g.k, g.c, s.received[s.finished], envs, i, j, f))
  {
    hide X.Inv, X.Run, After, HeadEnvs, ProvenBy;
    RunFollows(g, n, events);
    var s, envs := X.Run(g, n, events), HeadEnvs(g, n, events);
    NotDone(g, s);
    var wire := s.received[s.finished];
    var p := After(g.k, g.c, wire, envs);
    if IsProven(p) { ProvenExactly(g.k, g.c, wire, envs, p.stage.f); }
    forall i: nat, j: nat, f | ProvenBy(g.k, g.c, wire, envs, i, j, f) ensures IsProven(p) {
      ProvenExactly(g.k, g.c, wire, envs, f);
    }
  }
}
