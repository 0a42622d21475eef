/** One queued AnchorCom message on its way in: format, verify, decrypt, distribute. */
module AnchorComRx {
  import opened Bytes
  import opened AnchorComFormat
  import T = AnchorComTx

  datatype Queue = Queued | CmacReady | DecReady | ProcessReady | ProcessDone

  /** A row of the message table as the receiver sees it. */
  datatype Message = Message(chanId: byte, encrypt: bool, hasIndication: bool)

  datatype Config = Config(messages: map<byte, Message>, maxRetry: nat)

  /** What freshness management and the crypto services answer in one cycle. */
  datatype Env = Env(freshness: Option<T.Fresh>, verify: Csm, decrypt: Csm)

  /** Queue entry, the receive buffer it owns, and the payloads handed to the application. */
  datatype State = State(
    buf: bytes, dataLen: nat, q: Queue, message: Message, trunc: byte, cmac: bytes, err: nat, delivered: seq<bytes>)

  const UINT16: nat := 0x1_0000

  /** The largest receive buffer for which a length that has wrapped around lies outside. */
  const MAX_BUFFER: nat := UINT16 - AES_KEY_LEN

  /** The entry when TpRxIndication queued a message of this many received bytes. */
  predicate Room(buf: bytes, wire: bytes) {
    PREFIX_LEN + APPEND_LEN <= |wire| && CHANID_LEN + |wire| + APPEND_LEN <= |buf| <= MAX_BUFFER
  }

  /** The received bytes go behind the byte reserved for the channel id. */
  function Enqueue(buf: bytes, wire: bytes): State
    requires Room(buf, wire)
  {
    State(Write(buf, CHANID_LEN, wire), CHANID_LEN + |wire|, Queued, Message(0, false, false), 0, [], 0, [])
  }

  /** rbdAnchorComTp_RxFormatForCmac for a known message with available freshness. */
  function Format(m: Message, s: State, freshness: T.Fresh): State
    requires Sized(s) && s.q == Queued
  {
    var at := s.dataLen - APPEND_LEN;
    s.(message := m, trunc := s.buf[at], cmac := s.buf[at + 1..s.dataLen],
       buf := Write(s.buf[0 := m.chanId], at, freshness), dataLen := s.dataLen + APPEND_LEN, q := CmacReady)
  }

  /** The first half of rbdAnchorComTp_RxPart1. */
  function Prepare(c: Config, s: State, env: Env): State
    requires Sized(s)
  {
    if s.q != Queued then s
    else if s.buf[CHANID_LEN] !in c.messages || env.freshness.None? then s.(err := s.err + 1)
    else Format(c.messages[s.buf[CHANID_LEN]], s, env.freshness.value)
  }

  /** rbdAnchorComCsm_Verify: a wrong code is an ordinary failure, and so is a transient fault. */
  function Verify(k: Crypto, s: State, fault: Csm): Csm
    requires Sized(s) && s.q == CmacReady
  {
    if fault == CsmOk && k.mac(s.buf[..s.dataLen]) != s.cmac then CsmFail else fault
  }

  /** rbdAnchorComTp_RxPart1 */
  function Part1(k: Crypto, c: Config, s: State, env: Env): State
    requires Sized(s)
  {
    var s1 := Prepare(c, s, env);
    if s1.q != CmacReady then s1
    else match Verify(k, s1, env.verify)
      case CsmOk => s1.(dataLen := s1.dataLen - FRESH_LEN, q := if s1.message.encrypt then DecReady else ProcessReady)
      case CsmFail => s1.(err := s1.err + 1)
      case CsmFatal => s1.(err := s1.err + c.maxRetry)
  }

  /** Decryption in place; the freshness is still behind the payload. The padding count is a uint16 difference. */
  function Decrypt(k: Crypto, s: State): State
    requires k.Valid() && Sized(s) && s.q == DecReady
  {
    var at := s.dataLen;
    var plain := k.dec(s.buf[HEADER_LEN..at], s.buf[at..at + FRESH_LEN]);
    s.(buf := Write(s.buf, HEADER_LEN, plain), dataLen := (at - s.buf[2] % 16) % UINT16, q := ProcessReady)
  }

  /** rbdAnchorComTp_RxPart2 */
  function Part2(k: Crypto, c: Config, s: State, env: Env): State
    requires k.Valid() && Sized(s)
  {
    if s.q != DecReady then s
    else match env.decrypt
      case CsmOk => Decrypt(k, s)
      case CsmFail => s.(err := s.err + 1)
      case CsmFatal => s.(err := s.err + c.maxRetry)
  }

  /** rbdAnchorComTp_RxPart3 */
  function Part3(c: Config, s: State): State {
    if s.q != ProcessReady then s
    else if s.message.hasIndication then
      var n := (s.dataLen - HEADER_LEN) % UINT16;
      s.(delivered := s.delivered + [Slice(s.buf, n)], q := ProcessDone)
    else s.(err := s.err + c.maxRetry)
  }

  /** The payload range of the buffer. */
  function Slice(buf: bytes, n: nat): bytes {
    if HEADER_LEN + n <= |buf| then buf[HEADER_LEN..HEADER_LEN + n] else []
  }

  /** One pass of rbdAnchorCom_CyclicRx over the entry at the head of its queue. */
  function Cycle(k: Crypto, c: Config, s: State, env: Env): State
    requires k.Valid() && Sized(s)
  {
    Part3(c, Part2(k, c, Part1(k, c, s, env), env))
  }

  predicate Sized(s: State) {
    match s.q
    case Queued => HEADER_LEN + APPEND_LEN <= s.dataLen && s.dataLen + APPEND_LEN <= |s.buf|
    case CmacReady => HEADER_LEN + FRESH_LEN <= s.dataLen <= |s.buf|
    case DecReady => HEADER_LEN <= s.dataLen && s.dataLen + FRESH_LEN <= |s.buf|
    case _ => true
  }

  lemma PrepareSize(c: Config, s: State, env: Env)
    requires Sized(s)
    ensures Sized(Prepare(c, s, env))
  {
  }

  lemma Part1Size(k: Crypto, c: Config, s: State, env: Env)
    requires Sized(s)
    ensures Sized(Part1(k, c, s, env))
  {
  }

  // ----- Meaning of the buffer for a message that the peer sealed ------------------------------------

  /** The message as sealed by the peer: payload, flag byte, freshness and truncated freshness. */
  datatype Sealed = Sealed(p: bytes, flag: byte, freshness: T.Fresh, trunc: byte)

  /** Both ends have the same row for this message, and the receiver's application listens. */
  ghost predicate Agree(t: T.Config, c: Config) {
    t.pduId in c.messages && c.messages[t.pduId] == Message(t.chanId, t.encrypt, true)
  }

  ghost function Input(k: Crypto, t: T.Config, m: Sealed): bytes {
    T.MacInput(k, t, m.p, m.flag, m.freshness)
  }

  ghost predicate Inv(k: Crypto, t: T.Config, c: Config, m: Sealed, s: State) {
    && k.Valid() && Agree(t, c) && Sized(s) && |s.buf| < UINT16
    && s.delivered == (if s.q == ProcessDone then [m.p] else [])
    && (s.q != Queued ==> s.message == c.messages[t.pduId])
    && match s.q
       case Queued =>
         s.buf[CHANID_LEN..s.dataLen] == T.Wire(k, t, m.p, m.flag, m.freshness, m.trunc)
       case CmacReady =>
         s.dataLen == |Input(k, t, m)| && Input(k, t, m) <= s.buf && s.cmac == k.mac(Input(k, t, m))
       case DecReady =>
         t.encrypt && s.dataLen + FRESH_LEN == |Input(k, t, m)| && Input(k, t, m) <= s.buf
       case _ =>
         s.dataLen == HEADER_LEN + |m.p| <= |s.buf| && s.buf[HEADER_LEN..s.dataLen] == m.p
  }

  /** Freshness management finds the sender's value whenever it answers. */
  ghost predicate InSync(m: Sealed, env: Env) {
    env.freshness.Some? ==> env.freshness.value == m.freshness
  }

  lemma EnqueueInv(k: Crypto, t: T.Config, c: Config, m: Sealed, buf: bytes)
    requires k.Valid() && Agree(t, c)
    requires Room(buf, T.Wire(k, t, m.p, m.flag, m.freshness, m.trunc))
    ensures Inv(k, t, c, m, Enqueue(buf, T.Wire(k, t, m.p, m.flag, m.freshness, m.trunc)))
  {
  }

  /** The receiver's formatting rebuilds the very byte string that the sender authenticated. */
  lemma FormatInv(k: Crypto, t: T.Config, c: Config, m: Sealed, s: State)
    requires Inv(k, t, c, m, s) && s.q == Queued
    ensures s.buf[CHANID_LEN] == t.pduId
    ensures Inv(k, t, c, m, Format(c.messages[t.pduId], s, m.freshness))
    ensures var s' := Format(c.messages[t.pduId], s, m.freshness);
            s'.buf[..s'.dataLen] == Input(k, t, m) && s'.trunc == m.trunc
  {
    hide Padded, PadLen, FlagByte, Write, Body;
    var h, body := T.Header(t, m.p, m.flag), Body(k, t.encrypt, m.p, m.freshness);
    var code := k.mac(Input(k, t, m));
    var wire, at := T.Wire(k, t, m.p, m.flag, m.freshness, m.trunc), s.dataLen - APPEND_LEN;
    WireParts(h, body, m.trunc, code, s.buf, s.dataLen);
    var s' := Format(c.messages[t.pduId], s, m.freshness);
    var b1 := s.buf[0 := t.chanId];
    assert s'.buf[..HEADER_LEN] == s'.buf[..at][..HEADER_LEN] == b1[..HEADER_LEN] == h;
    assert s'.buf[HEADER_LEN..at] == s'.buf[..at][HEADER_LEN..] == b1[..at][HEADER_LEN..] == body;
    T.PrefixOf(s'.buf, h, body, m.freshness);
  }

  lemma SliceOfSlice(b: bytes, lo: nat, hi: nat, i: nat, j: nat)
    requires lo <= hi <= |b| && i <= j <= hi - lo
    ensures b[lo..hi][i..j] == b[lo + i..lo + j]
  {
    var x, y := b[lo..hi][i..j], b[lo + i..lo + j];
    forall k | 0 <= k < |x| ensures x[k] == y[k] {
      assert x[k] == b[lo..hi][i + k] == b[lo + i + k];
    }
  }

  /** The parts of the wire format at their places in the receive buffer. */
  lemma WireParts(h: bytes, body: bytes, trunc: byte, code: bytes, buf: bytes, n: nat)
    requires |h| == HEADER_LEN && |code| == CMAC_LEN && 1 <= n <= |buf|
    requires buf[CHANID_LEN..n] == h[1..] + body + [trunc] + code
    ensures n == HEADER_LEN + |body| + APPEND_LEN
    ensures buf[1] == h[1] && buf[2] == h[2] && buf[HEADER_LEN..n - APPEND_LEN] == body
    ensures buf[n - APPEND_LEN] == trunc && buf[n - CMAC_LEN..n] == code
  {
    var w := buf[CHANID_LEN..n];
    assert w[0] == h[1] && w[1] == h[2];
    assert w[PREFIX_LEN..PREFIX_LEN + |body|] == body;
    assert w[PREFIX_LEN + |body|] == trunc;
    assert w[PREFIX_LEN + |body| + 1..] == code;
    assert |w| == n - 1 == PREFIX_LEN + |body| + APPEND_LEN;
    SliceOfSlice(buf, CHANID_LEN, n, PREFIX_LEN, PREFIX_LEN + |body|);
    SliceOfSlice(buf, CHANID_LEN, n, PREFIX_LEN + |body| + 1, |w|);
  }

  lemma PrepareInv(k: Crypto, t: T.Config, c: Config, m: Sealed, s: State, env: Env)
    requires Inv(k, t, c, m, s) && InSync(m, env)
    ensures Sized(s) && Inv(k, t, c, m, Prepare(c, s, env))
  {
    if s.q == Queued { FormatInv(k, t, c, m, s); }
    hide Format;
  }

  lemma Part1Inv(k: Crypto, t: T.Config, c: Config, m: Sealed, s: State, env: Env)
    requires Inv(k, t, c, m, s) && InSync(m, env)
    ensures Inv(k, t, c, m, Part1(k, c, s, env))
  {
    hide Padded, PadLen, FlagByte, Prepare, Body;
    PrepareInv(k, t, c, m, s, env);
    var s1 := Prepare(c, s, env);
    if s1.q == CmacReady {
      T.PartsOf(s1.buf, T.Header(t, m.p, m.flag), Body(k, t.encrypt, m.p, m.freshness), m.freshness);
      PlainBody(k, t, m);
    }
  }

  lemma PlainBody(k: Crypto, t: T.Config, m: Sealed)
    ensures !t.encrypt ==> Body(k, t.encrypt, m.p, m.freshness) == m.p
  {
  }

  lemma FlagNibble(n: nat)
    ensures FlagByte(PadLen(n)) % 16 == PadLen(n)
  {
  }

  /** Decryption undoes the sender's encryption, and the low nibble of the flag byte is the padding. */
  lemma Decrypts(k: Crypto, t: T.Config, m: Sealed, buf: bytes, n: nat)
    requires k.Valid() && t.encrypt && n + FRESH_LEN == |Input(k, t, m)| && Input(k, t, m) <= buf
    ensures HEADER_LEN + |Padded(m.p)| == n && n + FRESH_LEN <= |buf|
    ensures k.dec(buf[HEADER_LEN..n], buf[n..n + FRESH_LEN]) == Padded(m.p) && buf[2] % 16 == PadLen(|m.p|)
  {
    hide PadLen, FlagByte;
    FlagNibble(|m.p|);
    var h := T.Header(t, m.p, m.flag);
    T.PartsOf(buf, h, Body(k, t.encrypt, m.p, m.freshness), m.freshness);
    assert buf[2] == buf[..HEADER_LEN][2] == h[2];
  }

  lemma DecryptInv(k: Crypto, t: T.Config, c: Config, m: Sealed, s: State)
    requires Inv(k, t, c, m, s) && s.q == DecReady
    ensures Inv(k, t, c, m, Decrypt(k, s))
  {
    hide PadLen, Write, Input, Agree;
    Decrypts(k, t, m, s.buf, s.dataLen);
    var s' := Decrypt(k, s);
    SliceOfSlice(s'.buf, HEADER_LEN, s.dataLen, 0, |m.p|);
    assert Padded(m.p)[..|m.p|] == m.p;
  }

  lemma Part2Inv(k: Crypto, t: T.Config, c: Config, m: Sealed, s: State, env: Env)
    requires Inv(k, t, c, m, s)
    ensures Inv(k, t, c, m, Part2(k, c, s, env))
  {
    if s.q == DecReady { DecryptInv(k, t, c, m, s); }
    hide Decrypt;
  }

  lemma Part3Inv(k: Crypto, t: T.Config, c: Config, m: Sealed, s: State)
    requires Inv(k, t, c, m, s)
    ensures Inv(k, t, c, m, Part3(c, s))
  {
  }

  lemma CycleInv(k: Crypto, t: T.Config, c: Config, m: Sealed, s: State, env: Env)
    requires Inv(k, t, c, m, s) && InSync(m, env)
    ensures Sized(s) && Inv(k, t, c, m, Cycle(k, c, s, env))
  {
    hide Part1, Part2, Part3;
    Part1Inv(k, t, c, m, s, env);
    var s1 := Part1(k, c, s, env);
    Part2Inv(k, t, c, m, s1, env);
    Part3Inv(k, t, c, m, Part2(k, c, s1, env));
  }

  /** The entry after any cycles, whatever fails in between. */
  ghost function Run(k: Crypto, t: T.Config, c: Config, m: Sealed, buf: bytes, envs: seq<Env>): (s: State)
    requires k.Valid() && Agree(t, c) && forall e :: e in envs ==> InSync(m, e)
    requires Room(buf, T.Wire(k, t, m.p, m.flag, m.freshness, m.trunc))
    ensures Inv(k, t, c, m, s)
  {
    EnqueueInv(k, t, c, m, buf);
    if envs == [] then Enqueue(buf, T.Wire(k, t, m.p, m.flag, m.freshness, m.trunc))
    else
      var s := Run(k, t, c, m, buf, envs[..|envs| - 1]);
      CycleInv(k, t, c, m, s, envs[|envs| - 1]);
      Cycle(k, c, s, envs[|envs| - 1])
  }

  // ----- The whole way ----------------------------------------------------------------------------------

  /** What the sender put on the wire, as a sealed message. */
  ghost function SealedBy(p: bytes, flag: byte, s: T.State): Sealed {
    Sealed(p, flag, s.freshness, s.trunc)
  }

  /**
   * Round trip: whatever the sender's freshness, crypto and transmission faults were, and whatever faults the
   * receiver meets, the application is handed nothing but the payload that was given to rbdAnchorCom_Transmit,
   * at most once, with padding removed; and both ends authenticate the same byte string.
   */
  lemma PayloadSurvives(k: Crypto, t: T.Config, c: Config, p1: bytes, p2: bytes, txBuf: bytes, sent: seq<T.Event>,
                        rxBuf: bytes, envs: seq<Env>)
    requires k.Valid() && Agree(t, c) && T.Room(txBuf, |p1| + |p2|)
    requires T.Transmitting(T.Run(k, t, txBuf, p1, p2, sent))
    requires Room(rxBuf, T.OnWire(T.Run(k, t, txBuf, p1, p2, sent)))
    requires forall e :: e in envs ==> InSync(SealedBy(p1 + p2, txBuf[2], T.Run(k, t, txBuf, p1, p2, sent)), e)
    ensures var x := T.Run(k, t, txBuf, p1, p2, sent);
            var m := SealedBy(p1 + p2, txBuf[2], x);
            && T.OnWire(x) == T.Wire(k, t, m.p, m.flag, m.freshness, m.trunc)
            && var s := Run(k, t, c, m, rxBuf, envs);
               && s.delivered == (if s.q == ProcessDone then [p1 + p2] else [])
               && (s.q == CmacReady ==> s.buf[..s.dataLen] == Input(k, t, m) && Verify(k, s, CsmOk) == CsmOk)
  {
    hide T.Run, T.Wire, Input;
    var m := SealedBy(p1 + p2, txBuf[2], T.Run(k, t, txBuf, p1, p2, sent));
    Verified(k, t, c, m, Run(k, t, c, m, rxBuf, envs));
  }

  /** And it does arrive: one cycle without faults delivers a message that is still waiting. */
  lemma FaultFreeCycleDelivers(k: Crypto, t: T.Config, c: Config, m: Sealed, s: State)
    requires Inv(k, t, c, m, s)
    ensures Cycle(k, c, s, Env(Some(m.freshness), CsmOk, CsmOk)).delivered == [m.p]
  {
    hide Input, Format, Padded, Write;
    var e := Env(Some(m.freshness), CsmOk, CsmOk);
    PrepareInv(k, t, c, m, s, e);
    Prepared(k, t, c, m, s);
    Part1Inv(k, t, c, m, s, e);
    Part2Inv(k, t, c, m, Part1(k, c, s, e), e);
    Part3Inv(k, t, c, m, Part2(k, c, Part1(k, c, s, e), e));
    Verified(k, t, c, m, Prepare(c, s, e));
  }

  lemma Prepared(k: Crypto, t: T.Config, c: Config, m: Sealed, s: State)
    requires Inv(k, t, c, m, s)
    ensures Prepare(c, s, Env(Some(m.freshness), CsmOk, CsmOk)).q != Queued
  {
    if s.q == Queued { FormatInv(k, t, c, m, s); }
  }

  /** The code of a message that the peer sealed is the one the receiver computes. */
  lemma Verified(k: Crypto, t: T.Config, c: Config, m: Sealed, s: State)
    requires Inv(k, t, c, m, s)
    ensures s.q == CmacReady ==> s.buf[..s.dataLen] == Input(k, t, m) && Verify(k, s, CsmOk) == CsmOk
  {
  }
}
