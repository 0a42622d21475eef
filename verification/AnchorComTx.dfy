/** One queued AnchorCom message on its way out: format, encrypt, authenticate, transmit. */
module AnchorComTx {
  import opened Bytes
  import opened AnchorComFormat

  datatype Queue = Queued | EncReady | CmacReady | TransReady | TransRunning | TransDone

  datatype Config = Config(pduId: byte, chanId: byte, encrypt: bool, maxRetry: nat)

  type Fresh = f: bytes | |f| == FRESH_LEN witness [0, 0, 0, 0, 0, 0, 0, 0]

  /** Freshness with its truncated byte. */
  datatype TxFresh = TxFresh(value: Fresh, trunc: byte)

  /** What freshness management, the crypto services and PduR answer in one cycle. */
  datatype Env = Env(freshness: Option<TxFresh>, encrypt: Csm, authenticate: Csm, lowerOk: bool)

  /**
   * Queue entry, message buffer and channel info; freshness records the value that was formatted in, dropped that the
   * entry was removed for too many errors.
   */
  datatype State = State(
    buf: bytes, len: nat, q: Queue, trunc: byte, cmac: bytes, err: nat, inProgress: bool, offset: nat, dropped: bool,
    freshness: Fresh)

  /** The static buffer has room for header, payload, padding and freshness. */
  predicate Room(buf: bytes, len: nat) {
    HEADER_LEN + len + AES_KEY_LEN + FRESH_LEN <= |buf|
  }

  /** rbdAnchorCom_Transmit with the payload in two pieces. */
  function Enqueue(buf: bytes, p1: bytes, p2: bytes): State
    requires Room(buf, |p1| + |p2|)
  {
    var b1 := Write(buf, HEADER_LEN, p1);
    var b2 := Write(b1, HEADER_LEN + |p1|, p2);
    State(b2, |p1| + |p2|, Queued, 0, [], 0, false, 0, false, [0, 0, 0, 0, 0, 0, 0, 0])
  }

  /** Header, padding and freshness around a payload of len bytes. */
  function Laid(c: Config, buf: bytes, len: nat, pad: nat, freshness: Fresh): (r: bytes)
    requires Room(buf, len) && pad < AES_KEY_LEN
    ensures |r| == |buf|
  {
    var b1 := buf[0 := c.chanId][1 := c.pduId];
    var b2 := if c.encrypt then Write(b1[2 := FlagByte(pad)], HEADER_LEN + len, Fill(pad, 0)) else b1;
    Write(b2, HEADER_LEN + len + pad, freshness)
  }

  /** rbdAnchorComTp_TxFormatForCrypto once freshness is available. */
  function Format(c: Config, s: State, f: TxFresh): State
    requires Room(s.buf, s.len)
  {
    var pad := if c.encrypt then PadLen(s.len) else 0;
    s.(buf := Laid(c, s.buf, s.len, pad, f.value), len := s.len + pad, trunc := f.trunc, freshness := f.value,
       q := if c.encrypt then EncReady else CmacReady)
  }

  /** rbdAnchorComTp_TxStartEncryption works in place on the payload. */
  function Encrypt(k: Crypto, s: State): State
    requires k.Valid() && HEADER_LEN + s.len + FRESH_LEN <= |s.buf|
  {
    var at := HEADER_LEN + s.len;
    s.(buf := Write(s.buf, HEADER_LEN, k.enc(s.buf[HEADER_LEN..at], s.buf[at..at + FRESH_LEN])), q := CmacReady)
  }

  /** rbdAnchorComTp_TxPart1: encryption is tried only in the cycle that formats. */
  function Part1(k: Crypto, c: Config, s: State, env: Env): State
    requires k.Valid() && (s.q == Queued ==> Room(s.buf, s.len))
  {
    if s.q != Queued then s
    else if env.freshness.None? then s.(err := s.err + 1)
    else
      var s1 := Format(c, s, env.freshness.value);
      if s1.q != EncReady then s1
      else match env.encrypt
        case CsmOk => Encrypt(k, s1)
        case CsmFail => s1.(err := s1.err + 1)
        case CsmFatal => s1.(err := s1.err + c.maxRetry)
  }

  /** The trailer replaces the freshness behind the payload; the length now counts what is transmitted. */
  function Seal(k: Crypto, s: State): State
    requires k.Valid() && HEADER_LEN + s.len + FRESH_LEN <= |s.buf|
  {
    var at := HEADER_LEN + s.len;
    var cmac := k.mac(s.buf[..at + FRESH_LEN]);
    s.(cmac := cmac, buf := Write(s.buf[at := s.trunc], at + 1, cmac), len := s.len + APPEND_LEN + PREFIX_LEN, q := TransReady)
  }

  /** rbdAnchorComTp_TxPart2 */
  function Part2(k: Crypto, c: Config, s: State, env: Env): State
    requires k.Valid() && (s.q == CmacReady ==> HEADER_LEN + s.len + FRESH_LEN <= |s.buf|)
  {
    if s.q != CmacReady then s
    else match env.authenticate
      case CsmOk => Seal(k, s)
      case CsmFail => s.(err := s.err + 1)
      case CsmFatal => s.(err := s.err + c.maxRetry)
  }

  /** rbdAnchorComTp_TxPart3: a refusal by PduR is fatal for the entry. */
  function Part3(c: Config, s: State, env: Env): State {
    if s.q != TransReady then s
    else
      var s1 := s.(q := TransRunning, inProgress := true, offset := 0);
      if env.lowerOk then s1 else s1.(err := s1.err + c.maxRetry)
  }

  /** The three parts; a transmission that is still running counts as one more error. */
  function Pass(k: Crypto, c: Config, s: State, env: Env): State
    requires k.Valid() && Sized(s)
  {
    var s0 := if s.q == TransRunning then s.(err := s.err + 1) else s;
    Part3(c, Part2(k, c, Part1(k, c, s0, env), env), env)
  }

  /** Removal after too many errors. */
  function Drop(c: Config, s: State): State {
    if s.err >= c.maxRetry then s.(dropped := true, inProgress := false) else s
  }

  /** rbdAnchorComTp_CyclicTx for the entry at the head of its queue; a finished or removed one is passed over. */
  function Cycle(k: Crypto, c: Config, s: State, env: Env): State
    requires k.Valid() && Sized(s)
  {
    if s.dropped || s.q == TransDone then s else Drop(c, Pass(k, c, s, env))
  }

  /** rbdAnchorComTp_TpTxConfirmation: a failed transmission is tried again. */
  function Confirm(s: State, result: Result): State {
    if !s.inProgress then s
    else if result == Ok then s.(inProgress := false, q := TransDone)
    else s.(inProgress := false, q := TransReady, err := s.err + 1)
  }

  predicate Sized(s: State) {
    match s.q
    case Queued => Room(s.buf, s.len)
    case EncReady => HEADER_LEN + s.len + FRESH_LEN <= |s.buf|
    case CmacReady => HEADER_LEN + s.len + FRESH_LEN <= |s.buf|
    case _ => CHANID_LEN + s.len <= |s.buf|
  }

  lemma FormatSize(c: Config, s: State, f: TxFresh)
    requires Room(s.buf, s.len)
    ensures Sized(Format(c, s, f)) && Format(c, s, f).q == if c.encrypt then EncReady else CmacReady
  {
  }

  lemma EncryptSize(k: Crypto, s: State)
    requires k.Valid() && s.q == EncReady && Sized(s)
    ensures Sized(Encrypt(k, s))
  {
  }

  lemma CycleSizes(k: Crypto, c: Config, s: State, env: Env)
    requires k.Valid() && Sized(s)
    ensures forall n: nat :: Sized(s.(err := n))
    ensures var s0 := if s.q == TransRunning then s.(err := s.err + 1) else s; Sized(Part1(k, c, s0, env))
  {
    hide Format, Encrypt, Room;
    if s.q == Queued && env.freshness.Some? {
      FormatSize(c, s, env.freshness.value);
      if c.encrypt { EncryptSize(k, Format(c, s, env.freshness.value)); }
    }
  }

  // ----- What the buffer means ------------------------------------------------------------------------

  /** The three header bytes; a plain message never writes its flag byte. */
  function Header(c: Config, p: bytes, flag: byte): bytes {
    [c.chanId, c.pduId, if c.encrypt then FlagByte(PadLen(|p|)) else flag]
  }

  /** The byte string under the authentication code. */
  function MacInput(k: Crypto, c: Config, p: bytes, flag: byte, freshness: bytes): bytes {
    Header(c, p, flag) + Body(k, c.encrypt, p, freshness) + freshness
  }

  /** The message on the wire: all but the channel id and the full freshness. */
  function Wire(k: Crypto, c: Config, p: bytes, flag: byte, freshness: bytes, trunc: byte): bytes {
    Header(c, p, flag)[1..] + Body(k, c.encrypt, p, freshness) + [trunc] + k.mac(MacInput(k, c, p, flag, freshness))
  }

  ghost predicate Inv(k: Crypto, c: Config, p: bytes, flag: byte, s: State) {
    && k.Valid() && Sized(s) && (s.inProgress <==> s.q == TransRunning && !s.dropped)
    && match s.q
       case Queued => s.len == |p| && s.buf[2] == flag && s.buf[HEADER_LEN..HEADER_LEN + s.len] == p
       case EncReady => c.encrypt && s.len == |Padded(p)| && Header(c, p, flag) + Padded(p) + s.freshness <= s.buf
       case CmacReady => s.len == |Body(k, c.encrypt, p, s.freshness)| && MacInput(k, c, p, flag, s.freshness) <= s.buf
       case _ => s.buf[CHANID_LEN..CHANID_LEN + s.len] == Wire(k, c, p, flag, s.freshness, s.trunc)
  }

  lemma EnqueueInv(k: Crypto, c: Config, buf: bytes, p1: bytes, p2: bytes)
    requires k.Valid() && Room(buf, |p1| + |p2|)
    ensures Inv(k, c, p1 + p2, buf[2], Enqueue(buf, p1, p2))
  {
    var s, b1 := Enqueue(buf, p1, p2), Write(buf, HEADER_LEN, p1);
    assert s.buf[..HEADER_LEN + |p1|] == b1[..HEADER_LEN + |p1|];
    assert s.buf[HEADER_LEN..HEADER_LEN + |p1|] == s.buf[..HEADER_LEN + |p1|][HEADER_LEN..] == p1;
    assert b1[..HEADER_LEN][2] == buf[..HEADER_LEN][2];
    assert s.buf[..HEADER_LEN + |p1|][2] == buf[2];
    assert s.buf[HEADER_LEN..HEADER_LEN + s.len] == p1 + p2;
  }

  /** A prefix is known from its parts. */
  lemma PrefixOf(buf: bytes, a: bytes, b: bytes, d: bytes)
    requires |a| + |b| + |d| <= |buf|
    requires buf[..|a|] == a && buf[|a|..|a| + |b|] == b && buf[|a| + |b|..|a| + |b| + |d|] == d
    ensures a + b + d <= buf
  {
    assert buf[..|a| + |b| + |d|] == a + b + d;
  }

  lemma PartsOf(buf: bytes, a: bytes, b: bytes, d: bytes)
    requires a + b + d <= buf
    ensures |a| + |b| + |d| <= |buf|
    ensures buf[..|a|] == a && buf[|a|..|a| + |b|] == b && buf[|a| + |b|..|a| + |b| + |d|] == d
  {
    assert buf[..|a| + |b| + |d|] == a + b + d;
    assert buf[..|a|] == (a + b + d)[..|a|];
    assert buf[|a|..|a| + |b|] == (a + b + d)[|a|..|a| + |b|];
    assert buf[|a| + |b|..|a| + |b| + |d|] == (a + b + d)[|a| + |b|..];
  }

  /** Header bytes and padding go around the payload. */
  lemma FormatLayout(c: Config, p: bytes, flag: byte, buf: bytes, pad: nat)
    requires Room(buf, |p|) && buf[2] == flag && buf[HEADER_LEN..HEADER_LEN + |p|] == p
    requires pad == PadLen(|p|)
    ensures var b1, n := buf[0 := c.chanId][1 := c.pduId], HEADER_LEN + |p|;
            && b1[..HEADER_LEN] == [c.chanId, c.pduId, flag] && b1[HEADER_LEN..n] == p
            && Write(b1[2 := FlagByte(pad)], n, Fill(pad, 0))[..HEADER_LEN] == [c.chanId, c.pduId, FlagByte(pad)]
            && Write(b1[2 := FlagByte(pad)], n, Fill(pad, 0))[HEADER_LEN..n + pad] == p + Fill(pad, 0)
  {
    hide PadLen, FlagByte;
    var b1, n := buf[0 := c.chanId][1 := c.pduId], HEADER_LEN + |p|;
    var b2 := Write(b1[2 := FlagByte(pad)], n, Fill(pad, 0));
    assert b2[..n] == b1[2 := FlagByte(pad)][..n];
    assert b2[HEADER_LEN..n] == b2[..n][HEADER_LEN..];
    assert b2[HEADER_LEN..n + pad] == b2[HEADER_LEN..n] + b2[n..n + pad];
    assert b2[..HEADER_LEN] == b2[..n][..HEADER_LEN];
  }

  /** Formatting lays out header, padded payload and freshness. */
  lemma FormatInv(k: Crypto, c: Config, p: bytes, flag: byte, s: State, f: TxFresh)
    requires Inv(k, c, p, flag, s) && s.q == Queued
    ensures Inv(k, c, p, flag, Format(c, s, f))
  {
    hide PadLen, FlagByte, Fill, Laid, Header;
    LaidParts(c, p, flag, s.buf, f.value);
  }

  lemma LaidParts(c: Config, p: bytes, flag: byte, buf: bytes, freshness: Fresh)
    requires Room(buf, |p|) && buf[2] == flag && buf[HEADER_LEN..HEADER_LEN + |p|] == p
    ensures var b, body := Laid(c, buf, |p|, if c.encrypt then PadLen(|p|) else 0, freshness), if c.encrypt then Padded(p) else p;
            Header(c, p, flag) + body + freshness <= b
  {
    hide PadLen, FlagByte, Write, Fill;
    FormatLayout(c, p, flag, buf, PadLen(|p|));
    var b, body := Laid(c, buf, |p|, if c.encrypt then PadLen(|p|) else 0, freshness), if c.encrypt then Padded(p) else p;
    var at := HEADER_LEN + |body|;
    assert b[..HEADER_LEN] == b[..at][..HEADER_LEN];
    assert b[HEADER_LEN..at] == b[..at][HEADER_LEN..];
    PrefixOf(b, Header(c, p, flag), body, freshness);
  }

  lemma EncryptInv(k: Crypto, c: Config, p: bytes, flag: byte, s: State)
    requires Inv(k, c, p, flag, s) && s.q == EncReady
    ensures Inv(k, c, p, flag, Encrypt(k, s))
  {
    var h, body, s' := Header(c, p, flag), k.enc(Padded(p), s.freshness), Encrypt(k, s);
    var at := HEADER_LEN + s.len;
    PartsOf(s.buf, h, Padded(p), s.freshness);
    assert s'.buf[at..at + FRESH_LEN] == s'.buf[at..][..FRESH_LEN] == s.buf[at..][..FRESH_LEN];
    PrefixOf(s'.buf, h, body, s.freshness);
  }

  /** The trailer goes behind the first at bytes and leaves them alone. */
  lemma SealLayout(buf: bytes, at: nat, trunc: byte, cmac: bytes)
    requires HEADER_LEN <= at && at + FRESH_LEN <= |buf| && |cmac| == CMAC_LEN
    ensures Write(buf[at := trunc], at + 1, cmac)[CHANID_LEN..at + APPEND_LEN]
         == buf[CHANID_LEN..HEADER_LEN] + buf[HEADER_LEN..at] + [trunc] + cmac
  {
    var b1 := buf[at := trunc];
    var b2 := Write(b1, at + 1, cmac);
    assert b2[..at] == b2[..at + 1][..at] == b1[..at + 1][..at] == buf[..at];
    assert b2[at] == b2[..at + 1][at] == trunc;
    assert b2[CHANID_LEN..at] == buf[..at][CHANID_LEN..] == buf[CHANID_LEN..HEADER_LEN] + buf[HEADER_LEN..at];
    assert b2[CHANID_LEN..at + APPEND_LEN] == b2[CHANID_LEN..at] + [b2[at]] + b2[at + 1..at + 1 + CMAC_LEN];
  }

  lemma SealInv(k: Crypto, c: Config, p: bytes, flag: byte, s: State)
    requires Inv(k, c, p, flag, s) && s.q == CmacReady
    ensures Inv(k, c, p, flag, Seal(k, s))
  {
    hide Padded, FlagByte, PadLen, Write, Body;
    var h, body, at := Header(c, p, flag), Body(k, c.encrypt, p, s.freshness), HEADER_LEN + s.len;
    PartsOf(s.buf, h, body, s.freshness);
    assert s.buf[..at + FRESH_LEN] == MacInput(k, c, p, flag, s.freshness);
    assert s.buf[CHANID_LEN..HEADER_LEN] == s.buf[..HEADER_LEN][1..] == h[1..];
    SealLayout(s.buf, at, s.trunc, k.mac(s.buf[..at + FRESH_LEN]));
  }

  lemma Part1Keeps(k: Crypto, c: Config, p: bytes, flag: byte, s: State, env: Env)
    requires Inv(k, c, p, flag, s)
    ensures Inv(k, c, p, flag, Part1(k, c, s, env))
  {
    hide Format, Encrypt, Inv, Room;
    ErrKeeps(k, c, p, flag, s);
    if s.q == Queued && env.freshness.Some? {
      FormatInv(k, c, p, flag, s, env.freshness.value);
      var s1 := Format(c, s, env.freshness.value);
      if s1.q == EncReady { EncryptInv(k, c, p, flag, s1); }
      ErrKeeps(k, c, p, flag, s1);
    }
  }

  lemma ErrKeeps(k: Crypto, c: Config, p: bytes, flag: byte, s: State)
    requires Inv(k, c, p, flag, s)
    ensures forall n: nat :: Inv(k, c, p, flag, s.(err := n))
    ensures Sized(s) && k.Valid()
  {
  }

  lemma Part2Keeps(k: Crypto, c: Config, p: bytes, flag: byte, s: State, env: Env)
    requires Inv(k, c, p, flag, s)
    ensures Inv(k, c, p, flag, Part2(k, c, s, env))
  {
    hide Seal, Inv, Room;
    ErrKeeps(k, c, p, flag, s);
    if s.q == CmacReady { SealInv(k, c, p, flag, s); }
  }

  lemma Part3Keeps(k: Crypto, c: Config, p: bytes, flag: byte, s: State, env: Env)
    requires Inv(k, c, p, flag, s) && !s.dropped
    ensures Inv(k, c, p, flag, Part3(c, s, env))
  {
  }

  lemma CycleKeeps(k: Crypto, c: Config, p: bytes, flag: byte, s: State, env: Env)
    requires Inv(k, c, p, flag, s)
    ensures Sized(s) && Inv(k, c, p, flag, Cycle(k, c, s, env))
  {
    hide Inv, Pass, Sized;
    ErrKeeps(k, c, p, flag, s);
    if !s.dropped {
      PassKeeps(k, c, p, flag, s, env);
      DropKeeps(k, c, p, flag, Pass(k, c, s, env));
    }
  }

  lemma DropKeeps(k: Crypto, c: Config, p: bytes, flag: byte, s: State)
    requires Inv(k, c, p, flag, s)
    ensures Inv(k, c, p, flag, Drop(c, s))
  {
  }

  lemma PassKeeps(k: Crypto, c: Config, p: bytes, flag: byte, s: State, env: Env)
    requires Inv(k, c, p, flag, s) && !s.dropped
    ensures Sized(s) && Inv(k, c, p, flag, Pass(k, c, s, env))
  {
    hide Inv, Part1, Part2, Part3, Sized;
    ErrKeeps(k, c, p, flag, s);
    var s0 := if s.q == TransRunning then s.(err := s.err + 1) else s;
    ErrKeeps(k, c, p, flag, s0);
    Part1Keeps(k, c, p, flag, s0, env);
    var s1 := Part1(k, c, s0, env);
    ErrKeeps(k, c, p, flag, s1);
    Part2Keeps(k, c, p, flag, s1, env);
    PartsAlive(k, c, s0, env);
    Part3Keeps(k, c, p, flag, Part2(k, c, s1, env), env);
  }

  /** The parts themselves remove nothing. */
  lemma PartsAlive(k: Crypto, c: Config, s: State, env: Env)
    requires k.Valid() && Sized(s) && Sized(Part1(k, c, s, env))
    ensures Part2(k, c, Part1(k, c, s, env), env).dropped == s.dropped
  {
    hide Laid, Write;
  }

  lemma ConfirmKeeps(k: Crypto, c: Config, p: bytes, flag: byte, s: State, result: Result)
    requires Inv(k, c, p, flag, s)
    ensures Inv(k, c, p, flag, Confirm(s, result))
  {
  }

  // ----- Runs -----------------------------------------------------------------------------------------

  datatype Event = ECycle(env: Env) | EConfirm(result: Result)

  function Step(k: Crypto, c: Config, s: State, e: Event): State
    requires k.Valid() && Sized(s)
  {
    match e
    case ECycle(env) => Cycle(k, c, s, env)
    case EConfirm(result) => Confirm(s, result)
  }

  lemma StepKeeps(k: Crypto, c: Config, p: bytes, flag: byte, s: State, e: Event)
    requires Inv(k, c, p, flag, s)
    ensures Sized(s) && Inv(k, c, p, flag, Step(k, c, s, e))
  {
    hide Inv, Cycle, Confirm, Sized;
    ErrKeeps(k, c, p, flag, s);
    match e
    case ECycle(env) => CycleKeeps(k, c, p, flag, s, env);
    case EConfirm(result) => ConfirmKeeps(k, c, p, flag, s, result);
  }

  /** The entry after any cycles and confirmations. */
  ghost function Run(k: Crypto, c: Config, buf: bytes, p1: bytes, p2: bytes, events: seq<Event>): (s: State)
    requires k.Valid() && Room(buf, |p1| + |p2|)
    ensures Inv(k, c, p1 + p2, buf[2], s)
  {
    EnqueueInv(k, c, buf, p1, p2);
    if events == [] then Enqueue(buf, p1, p2)
    else
      var s := Run(k, c, buf, p1, p2, events[..|events| - 1]);
      StepKeeps(k, c, p1 + p2, buf[2], s, events[|events| - 1]);
      Step(k, c, s, events[|events| - 1])
  }

  lemma RunExtends(k: Crypto, c: Config, buf: bytes, p1: bytes, p2: bytes, events: seq<Event>, e: Event)
    requires k.Valid() && Room(buf, |p1| + |p2|)
    ensures var s := Run(k, c, buf, p1, p2, events); Sized(s) && Run(k, c, buf, p1, p2, events + [e]) == Step(k, c, s, e)
  {
    hide Step, Enqueue;
    assert (events + [e])[..|events|] == events;
  }

  // ----- Results ----------------------------------------------------------------------------------------

  /** A transmission was confirmed at this point of the run, while it was in progress. */
  ghost predicate ConfirmedAt(k: Crypto, c: Config, buf: bytes, p1: bytes, p2: bytes, events: seq<Event>, j: nat)
    requires k.Valid() && Room(buf, |p1| + |p2|)
  {
    j < |events| && events[j] == EConfirm(Ok) && Run(k, c, buf, p1, p2, events[..j]).inProgress
  }

  /** An entry is done only if the transport layer confirmed it while its own transmission was in progress. */
  lemma {:induction false} DoneMeansConfirmed(k: Crypto, c: Config, buf: bytes, p1: bytes, p2: bytes, events: seq<Event>)
    requires k.Valid() && Room(buf, |p1| + |p2|) && Run(k, c, buf, p1, p2, events).q == TransDone
    ensures exists j: nat :: ConfirmedAt(k, c, buf, p1, p2, events, j)
  {
    hide Inv, Cycle, Enqueue, Sized;
    StartsQueued(buf, p1, p2);
    var n := |events| - 1;
    var before, s := events[..n], Run(k, c, buf, p1, p2, events[..n]);
    if events[n].ECycle? {
      StepKeeps(k, c, p1 + p2, buf[2], s, events[n]);
      CycleNeverDone(k, c, s, events[n].env);
    }
    if s.q == TransDone {
      DoneMeansConfirmed(k, c, buf, p1, p2, before);
      var j: nat :| ConfirmedAt(k, c, buf, p1, p2, before, j);
      assert before[..j] == events[..j];
      assert ConfirmedAt(k, c, buf, p1, p2, events, j);
    } else {
      assert ConfirmedAt(k, c, buf, p1, p2, events, n);
    }
  }

  lemma CycleNeverDone(k: Crypto, c: Config, s: State, env: Env)
    requires k.Valid() && Sized(s)
    ensures Cycle(k, c, s, env).q == TransDone ==> s.q == TransDone
  {
    hide Laid, Write;
  }

  lemma StartsQueued(buf: bytes, p1: bytes, p2: bytes)
    requires Room(buf, |p1| + |p2|)
    ensures Enqueue(buf, p1, p2).q == Queued
  {
  }

  /** The entry can still be sent: it is not removed, its encryption did not fail, and one more cycle is left to it. */
  predicate Hopeful(c: Config, s: State) {
    s.q == TransDone || (!s.dropped && s.q != EncReady && (s.q == TransRunning || s.err < c.maxRetry))
  }

  /** A cycle in which nothing fails. */
  const FAVOURABLE: Env := Env(Some(TxFresh([0, 0, 0, 0, 0, 0, 0, 0], 0)), CsmOk, CsmOk, true)

  lemma FavourableCycle(k: Crypto, c: Config, s: State)
    requires k.Valid() && Sized(s) && !s.dropped && s.q in {Queued, CmacReady, TransReady} && s.err < c.maxRetry
    ensures var s' := Cycle(k, c, s, FAVOURABLE); s'.q == TransRunning && s'.inProgress
  {
    hide Laid, Write;
  }

  /** Exactly a running transmission can be confirmed. */
  lemma InProgress(k: Crypto, c: Config, p: bytes, flag: byte, s: State)
    requires Inv(k, c, p, flag, s)
    ensures s.inProgress <==> s.q == TransRunning && !s.dropped
  {
  }

  /** Encryption is tried and failed in this cycle. */
  predicate FailsNow(c: Config, s: State, env: Env) {
    s.q == Queued && c.encrypt && env.freshness.Some? && env.encrypt != CsmOk
  }

  lemma FirstStage(k: Crypto, c: Config, s: State, env: Env)
    requires k.Valid() && Sized(s) && s.q != TransDone
    ensures var s' := Part1(k, c, s, env);
            && s'.err >= s.err && s'.dropped == s.dropped && s'.q != TransDone
            && (s'.q == EncReady <==> s.q == EncReady || FailsNow(c, s, env))
            && (FailsNow(c, s, env) ==> s'.err == s.err + if env.encrypt == CsmFail then 1 else c.maxRetry)
  {
    hide Laid, Write;
  }

  lemma LaterStages(k: Crypto, c: Config, s: State, env: Env)
    requires k.Valid() && Sized(s) && s.q != TransDone
    ensures var s' := Part3(c, Part2(k, c, s, env), env);
            && s'.err >= s.err && s'.dropped == s.dropped && s'.q != TransDone && (s'.q == EncReady <==> s.q == EncReady)
            && (s.q == EncReady ==> s' == s)
  {
    hide Write;
  }

  /** What a pass does to the stage of an entry and to its error count. */
  lemma PassStage(k: Crypto, c: Config, s: State, env: Env)
    requires k.Valid() && Sized(s) && s.q != TransDone
    ensures var s' := Pass(k, c, s, env);
            && s'.err >= s.err && s'.dropped == s.dropped && s'.q != TransDone
            && (s'.q == EncReady <==> s.q == EncReady || FailsNow(c, s, env))
            && (FailsNow(c, s, env) ==> s'.err == s.err + if env.encrypt == CsmFail then 1 else c.maxRetry)
  {
    hide Part1, Part2, Part3;
    CycleSizes(k, c, s, env);
    var s0 := if s.q == TransRunning then s.(err := s.err + 1) else s;
    FirstStage(k, c, s0, env);
    LaterStages(k, c, Part1(k, c, s0, env), env);
  }

  /** Hope once lost does not come back. */
  lemma HopelessStep(k: Crypto, c: Config, p: bytes, flag: byte, s: State, e: Event)
    requires Inv(k, c, p, flag, s) && !Hopeful(c, s)
    ensures !Hopeful(c, Step(k, c, s, e))
  {
    hide Inv, Pass;
    ErrKeeps(k, c, p, flag, s);
    InProgress(k, c, p, flag, s);
    if e.ECycle? && s.q != TransDone { PassStage(k, c, s, e.env); }
  }

  /** In this cycle the queued entry of an encrypted message found freshness, and its encryption did not succeed. */
  ghost predicate FailsAt(k: Crypto, c: Config, buf: bytes, p1: bytes, p2: bytes, events: seq<Event>, j: nat)
    requires k.Valid() && Room(buf, |p1| + |p2|)
  {
    && j < |events| && events[j].ECycle? && c.encrypt && events[j].env.freshness.Some? && events[j].env.encrypt != CsmOk
    && var s := Run(k, c, buf, p1, p2, events[..j]); s.q == Queued && !s.dropped
  }

  /** Exactly this makes an entry stuck, and it stays so. */
  lemma StuckStep(k: Crypto, c: Config, p: bytes, flag: byte, s: State, e: Event)
    requires Inv(k, c, p, flag, s)
    ensures Step(k, c, s, e).q == EncReady
       <==> s.q == EncReady || (s.q == Queued && !s.dropped && e.ECycle? && c.encrypt && e.env.freshness.Some? && e.env.encrypt != CsmOk)
  {
    hide Inv, Pass;
    ErrKeeps(k, c, p, flag, s);
    InProgress(k, c, p, flag, s);
    if e.ECycle? && s.q != TransDone { PassStage(k, c, s, e.env); }
  }

  /** A run ends with a stuck entry if and only if at some cycle its encryption failed right after formatting. */
  lemma {:induction false} StuckExactly(k: Crypto, c: Config, buf: bytes, p1: bytes, p2: bytes, events: seq<Event>)
    requires k.Valid() && Room(buf, |p1| + |p2|)
    ensures Run(k, c, buf, p1, p2, events).q == EncReady <==> exists j: nat :: FailsAt(k, c, buf, p1, p2, events, j)
  {
    hide Inv, Step, Enqueue;
    StartsQueued(buf, p1, p2);
    if events != [] {
      var n := |events| - 1;
      var before := events[..n];
      StuckExactly(k, c, buf, p1, p2, before);
      StuckStep(k, c, p1 + p2, buf[2], Run(k, c, buf, p1, p2, before), events[n]);
      forall j: nat | j < n ensures FailsAt(k, c, buf, p1, p2, before, j) <==> FailsAt(k, c, buf, p1, p2, events, j) {
        assert before[..j] == events[..j] && before[j] == events[j];
      }
      if Run(k, c, buf, p1, p2, events).q == EncReady && Run(k, c, buf, p1, p2, before).q != EncReady {
        assert FailsAt(k, c, buf, p1, p2, events, n);
      }
    }
  }

  /** The bytes that CopyTxData hands to the transport layer, in any chunks. */
  function OnWire(s: State): bytes
    requires CHANID_LEN + s.len <= |s.buf|
  {
    s.buf[CHANID_LEN..CHANID_LEN + s.len]
  }

  predicate Transmitting(s: State) {
    s.q in {TransReady, TransRunning, TransDone}
  }
}
