/** The AnchorCom pipeline on its real buffers: every step writes header, padding, cipher text and trailer in place. */
module AnchorComEntries {
  import opened Bytes
  import opened AnchorComFormat
  import T = AnchorComTx
  import R = AnchorComRx

  /** memcpy */
  method Copy(buf: array<byte>, at: nat, data: bytes)
    requires at + |data| <= buf.Length
    modifies buf
    ensures buf[..] == Write(old(buf[..]), at, data)
  {
    for i := 0 to |data|
      invariant buf[..] == Write(old(buf[..]), at, data[..i])
    {
      ghost var before := buf[..];
      buf[at + i] := data[i];
      assert buf[..] == before[at + i := data[i]];
      assert data[..i + 1] == data[..i] + [data[i]];
      assert buf[..] == Write(old(buf[..]), at, data[..i + 1]);
    }
    assert data[..|data|] == data;
  }

  /** A Tx queue entry with its message buffer. */
  class TxEntry {
    const k: Crypto
    const c: T.Config
    const buf: array<byte>
    var len: nat
    var q: T.Queue
    var trunc: byte
    var cmac: bytes
    var err: nat
    var inProgress: bool
    var offset: nat
    var dropped: bool
    ghost var freshness: T.Fresh

    ghost function State(): T.State
      reads this, buf
    {
      T.State(buf[..], len, q, trunc, cmac, err, inProgress, offset, dropped, freshness)
    }

    /** rbdAnchorCom_Transmit on an idle buffer. */
    constructor (k: Crypto, c: T.Config, buf: array<byte>, p1: bytes, p2: bytes)
      requires T.Room(buf[..], |p1| + |p2|)
      modifies buf
      ensures this.k == k && this.c == c && this.buf == buf
      ensures State() == T.Enqueue(old(buf[..]), p1, p2)
    {
      this.k, this.c, this.buf := k, c, buf;
      len, q, trunc, cmac, err, inProgress, offset, dropped := |p1| + |p2|, T.Queued, 0, [], 0, false, 0, false;
      freshness := [0, 0, 0, 0, 0, 0, 0, 0];
      new;
      Copy(buf, HEADER_LEN, p1);
      Copy(buf, HEADER_LEN + |p1|, p2);
    }

    /** Channel id, PDU id and, for an encrypted message, the flag byte. */
    method PutHeader(pad: nat)
      requires buf.Length >= HEADER_LEN && pad < AES_KEY_LEN
      modifies buf
      ensures var b := old(buf[..])[0 := c.chanId][1 := c.pduId]; buf[..] == if c.encrypt then b[2 := FlagByte(pad)] else b
    {
      buf[0] := c.chanId;
      buf[1] := c.pduId;
      if c.encrypt {
        buf[2] := FlagByte(pad);
      }
    }

    method PutPadding(pad: nat)
      requires HEADER_LEN + len + pad <= buf.Length
      modifies buf
      ensures buf[..] == if c.encrypt then Write(old(buf[..]), HEADER_LEN + len, Fill(pad, 0)) else old(buf[..])
    {
      if c.encrypt {
        Copy(buf, HEADER_LEN + len, Fill(pad, 0));
      }
    }

    method Layout(pad: nat, freshness: T.Fresh)
      requires T.Room(buf[..], len) && pad < AES_KEY_LEN
      modifies buf
      ensures buf[..] == T.Laid(c, old(buf[..]), len, pad, freshness)
    {
      hide FlagByte, Write, Fill;
      PutHeader(pad);
      PutPadding(pad);
      Copy(buf, HEADER_LEN + len + pad, freshness);
    }

    method FormatForCrypto(f: T.TxFresh)
      requires T.Room(buf[..], len)
      modifies this, buf
      ensures State() == T.Format(c, old(State()), f)
    {
      hide PadLen, T.Laid;
      var pad := if c.encrypt then PadLen(len) else 0;
      Layout(pad, f.value);
      len, trunc, freshness := len + pad, f.trunc, f.value;
      q := if c.encrypt then T.EncReady else T.CmacReady;
    }

    method StartEncryption()
      requires k.Valid() && HEADER_LEN + len + FRESH_LEN <= buf.Length
      modifies this, buf
      ensures State() == T.Encrypt(k, old(State()))
    {
      hide Write;
      var at := HEADER_LEN + len;
      Copy(buf, HEADER_LEN, k.enc(buf[HEADER_LEN..at], buf[at..at + FRESH_LEN]));
      q := T.CmacReady;
    }

    method Part1(env: T.Env)
      requires k.Valid() && T.Sized(State())
      modifies this, buf
      ensures State() == T.Part1(k, c, old(State()), env)
    {
      hide T.Format, T.Encrypt;
      if q == T.Queued {
        if env.freshness.None? {
          err := err + 1;
        } else {
          T.FormatSize(c, State(), env.freshness.value);
          FormatForCrypto(env.freshness.value);
          if q == T.EncReady {
            match env.encrypt
            case CsmOk => StartEncryption();
            case CsmFail => err := err + 1;
            case CsmFatal => err := err + c.maxRetry;
          }
        }
      }
    }

    /** The code is taken over header, body and freshness before the trailer overwrites the freshness. */
    method Seal()
      requires k.Valid() && HEADER_LEN + len + FRESH_LEN <= buf.Length
      modifies this, buf
      ensures State() == T.Seal(k, old(State()))
    {
      hide Write;
      var at := HEADER_LEN + len;
      cmac := k.mac(buf[..at + FRESH_LEN]);
      buf[at] := trunc;
      Copy(buf, at + 1, cmac);
      len := len + APPEND_LEN + PREFIX_LEN;
      q := T.TransReady;
    }

    method Part2(env: T.Env)
      requires k.Valid() && T.Sized(State())
      modifies this, buf
      ensures State() == T.Part2(k, c, old(State()), env)
    {
      hide T.Seal;
      if q == T.CmacReady {
        match env.authenticate
        case CsmOk => Seal();
        case CsmFail => err := err + 1;
        case CsmFatal => err := err + c.maxRetry;
      }
    }

    method Part3(env: T.Env)
      modifies this
      ensures State() == T.Part3(c, old(State()), env)
    {
      if q == T.TransReady {
        q, inProgress, offset := T.TransRunning, true, 0;
        if !env.lowerOk {
          err := err + c.maxRetry;
        }
      }
    }

    /** The three parts in order. */
    method Pass(env: T.Env)
      requires k.Valid() && T.Sized(State())
      modifies this, buf
      ensures State() == T.Pass(k, c, old(State()), env)
    {
      hide T.Part1, T.Part2, T.Part3, T.Room;
      T.CycleSizes(k, c, State(), env);
      if q == T.TransRunning {
        err := err + 1;
      }
      Part1(env);
      Part2(env);
      Part3(env);
    }

    method Cyclic(env: T.Env)
      requires k.Valid() && T.Sized(State())
      modifies this, buf
      ensures State() == T.Cycle(k, c, old(State()), env)
    {
      hide T.Pass, T.Sized;
      if !dropped && q != T.TransDone {
        Pass(env);
        if err >= c.maxRetry {
          dropped, inProgress := true, false;
        }
      }
    }

    method TxConfirmation(result: Result)
      modifies this
      ensures State() == T.Confirm(old(State()), result)
    {
      if inProgress {
        inProgress := false;
        if result == Ok {
          q := T.TransDone;
        } else {
          q, err := T.TransReady, err + 1;
        }
      }
    }

    /** rbdAnchorComTp_CopyTxData: the next bytes of the wire image, never past its end. */
    method CopyTxData(n: nat) returns (data: bytes, left: nat)
      requires CHANID_LEN + len <= buf.Length && offset <= len
      modifies this`offset
      ensures |data| == Min(n, len - old(offset)) && offset == old(offset) + |data| && left == len - offset
      ensures data == T.OnWire(State())[old(offset)..offset]
    {
      var count := Min(n, len - offset);
      data := buf[CHANID_LEN + offset..CHANID_LEN + offset + count];
      R.SliceOfSlice(buf[..], CHANID_LEN, CHANID_LEN + len, offset, offset + count);
      offset := offset + count;
      left := len - offset;
    }
  }

  /** An Rx queue entry with the receive buffer it owns. */
  class RxEntry {
    const k: Crypto
    const c: R.Config
    const buf: array<byte>
    var dataLen: nat
    var q: R.Queue
    var message: R.Message
    var trunc: byte
    var cmac: bytes
    var err: nat
    var delivered: seq<bytes>

    ghost function State(): R.State
      reads this, buf
    {
      R.State(buf[..], dataLen, q, message, trunc, cmac, err, delivered)
    }

    constructor (k: Crypto, c: R.Config, buf: array<byte>, wire: bytes)
      requires R.Room(buf[..], wire)
      modifies buf
      ensures this.k == k && this.c == c && this.buf == buf
      ensures State() == R.Enqueue(old(buf[..]), wire)
    {
      this.k, this.c, this.buf := k, c, buf;
      dataLen, q, message, trunc, cmac, err := CHANID_LEN + |wire|, R.Queued, R.Message(0, false, false), 0, [], 0;
      delivered := [];
      new;
      Copy(buf, CHANID_LEN, wire);
    }

    /** The trailer is copied out before the full freshness overwrites it. */
    method FormatForCmac(env: R.Env)
      requires R.Sized(State())
      modifies this, buf
      ensures State() == R.Prepare(c, old(State()), env)
    {
      hide Write;
      if q == R.Queued {
        if buf[CHANID_LEN] !in c.messages || env.freshness.None? {
          err := err + 1;
        } else {
          var at := dataLen - APPEND_LEN;
          message, trunc, cmac := c.messages[buf[CHANID_LEN]], buf[at], buf[at + 1..dataLen];
          buf[0] := message.chanId;
          Copy(buf, at, env.freshness.value);
          dataLen, q := dataLen + APPEND_LEN, R.CmacReady;
        }
      }
    }

    method Part1(env: R.Env)
      requires R.Sized(State())
      modifies this, buf
      ensures State() == R.Part1(k, c, old(State()), env)
    {
      hide R.Prepare;
      R.PrepareSize(c, State(), env);
      FormatForCmac(env);
      if q == R.CmacReady {
        var answer := env.verify;
        if answer == CsmOk && k.mac(buf[..dataLen]) != cmac {
          answer := CsmFail;
        }
        match answer
        case CsmOk =>
          dataLen, q := dataLen - FRESH_LEN, if message.encrypt then R.DecReady else R.ProcessReady;
        case CsmFail => err := err + 1;
        case CsmFatal => err := err + c.maxRetry;
      }
    }

    method Part2(env: R.Env)
      requires k.Valid() && R.Sized(State())
      modifies this, buf
      ensures State() == R.Part2(k, c, old(State()), env)
    {
      hide Write;
      if q == R.DecReady {
        match env.decrypt
        case CsmOk =>
          var padding := buf[2] % 16;
          Copy(buf, HEADER_LEN, k.dec(buf[HEADER_LEN..dataLen], buf[dataLen..dataLen + FRESH_LEN]));
          dataLen, q := (dataLen - padding) % R.UINT16, R.ProcessReady;
        case CsmFail => err := err + 1;
        case CsmFatal => err := err + c.maxRetry;
      }
    }

    method Part3()
      modifies this
      ensures State() == R.Part3(c, old(State()))
    {
      if q == R.ProcessReady {
        if message.hasIndication {
          var n := (dataLen - HEADER_LEN) % R.UINT16;
          delivered := delivered + [R.Slice(buf[..], n)];
          q := R.ProcessDone;
        } else {
          err := err + c.maxRetry;
        }
      }
    }

    method Cyclic(env: R.Env)
      requires k.Valid() && R.Sized(State())
      modifies this, buf
      ensures State() == R.Cycle(k, c, old(State()), env)
    {
      hide R.Part1, R.Part2, R.Part3;
      R.Part1Size(k, c, State(), env);
      Part1(env);
      Part2(env);
      Part3();
    }
  }
}
