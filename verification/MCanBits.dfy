/** Searching the new-data bits of the CAN controller, highest first. */
module MCanBits {

  function Pow2(n: nat): (p: nat)
    ensures p > 0
  {
    if n == 0 then 1 else 2 * Pow2(n - 1)
  }

  /** Number of binary digits. */
  function Width(v: nat): nat {
    if v == 0 then 0 else 1 + Width(v / 2)
  }

  /** Bit i of v. */
  predicate Bit(v: nat, i: nat) {
    if i == 0 then v % 2 == 1 else Bit(v / 2, i - 1)
  }

  lemma {:induction false} Pow2Sum(a: nat, b: nat)
    ensures Pow2(a + b) == Pow2(a) * Pow2(b)
    decreases a
  {
    if a > 0 { Pow2Sum(a - 1, b); }
  }

  lemma Pow32()
    ensures Pow2(32) == 0x1_0000_0000 && Pow2(64) == 0x1_0000_0000_0000_0000
  {
    assert Pow2(8) == 256;
    Pow2Sum(8, 8);
    Pow2Sum(16, 16);
    Pow2Sum(32, 32);
  }

  /** A logical right shift by k. */
  function Shr(v: nat, k: nat): nat {
    if k == 0 then v else Shr(v / 2, k - 1)
  }

  /** A shift that leaves something removes exactly k digits. */
  lemma {:induction false} WidthShift(v: nat, k: nat)
    ensures Shr(v, k) != 0 ==> Width(v) == Width(Shr(v, k)) + k
    ensures Shr(v, k) == 0 ==> v < Pow2(k)
  {
    if k > 0 { WidthShift(v / 2, k - 1); }
    if v == 0 { ShrZero(k); }
  }

  lemma {:induction false} ShrZero(k: nat)
    ensures Shr(0, k) == 0
  {
    if k > 0 { ShrZero(k - 1); }
  }

  lemma {:induction false} ShiftBound(v: nat, a: nat, b: nat)
    requires v < Pow2(a + b)
    ensures Shr(v, a) < Pow2(b)
  {
    if a > 0 { ShiftBound(v / 2, a - 1, b); }
  }

  /** A number of width w lies between 2^(w-1) and 2^w. */
  lemma {:induction false} WidthBounds(v: nat)
    ensures v < Pow2(Width(v)) && (v > 0 ==> Pow2(Width(v) - 1) <= v)
  {
    if v > 0 { WidthBounds(v / 2); }
  }

  lemma {:induction false} WidthAtMost(v: nat, n: nat)
    requires v < Pow2(n)
    ensures Width(v) <= n
  {
    if v > 0 { WidthAtMost(v / 2, n - 1); }
  }

  /** GetCntLeadZero: halving search for the leading zeros of a 32-bit value. */
  method GetCntLeadZero(v: nat) returns (zeros: nat)
    requires v < 0x1_0000_0000
    ensures zeros == 32 - Width(v)
  {
    hide Pow2, Width, Shr;
    var value: nat, cnt: nat, num: nat := v, 16, 32;
    Pow32();
    WidthFits(v);
    while cnt != 0
      invariant cnt == 16 || cnt == 8 || cnt == 4 || cnt == 2 || cnt == 1 || cnt == 0
      invariant value < (if cnt == 0 then 2 else Pow2(cnt + cnt))
      invariant num <= 32 && Width(v) == Width(value) + (32 - num)
      decreases cnt
    {
      var shifted := Shr(value, cnt);
      ShiftBound(value, cnt, cnt);
      WidthShift(value, cnt);
      if shifted != 0 {
        num := num - cnt;
        value := shifted;
      }
      PowHalf(cnt);
      cnt := cnt / 2;
    }
    OneDigit(value);
    zeros := num - value;
  }

  lemma OneDigit(v: nat)
    requires v < 2
    ensures Width(v) == v
  {
  }

  lemma WidthPositive(v: nat)
    requires v > 0
    ensures Width(v) > 0
  {
  }

  lemma WidthFits(v: nat)
    requires v < 0x1_0000_0000
    ensures Width(v) <= 32
  {
    Pow32();
    WidthAtMost(v, 32);
  }

  /** The next step of the search again covers twice its own shift. */
  lemma PowHalf(cnt: nat)
    requires cnt == 16 || cnt == 8 || cnt == 4 || cnt == 2 || cnt == 1
    ensures Pow2(cnt) == if cnt / 2 == 0 then 2 else Pow2(cnt / 2 + cnt / 2)
  {
  }

  /** getmsb: top set bit of a 64-bit value, or -1. */
  method GetMsb(v: nat) returns (pos: int)
    requires v < 0x1_0000_0000_0000_0000
    ensures pos == Width(v) - 1
  {
    hide Pow2, Width, Shr;
    Pow32();
    ShiftBound(v, 32, 32);
    WidthShift(v, 32);
    var zeros: int := GetCntLeadZero(Shr(v, 32));
    pos := 31 - zeros;
    if pos < 0 {
      WidthZero(Shr(v, 32));
      zeros := GetCntLeadZero(v % 0x1_0000_0000);
      pos := 31 - zeros;
    } else {
      WidthZero(Shr(v, 32));
      pos := pos + 32;
    }
  }

  lemma WidthZero(v: nat)
    ensures Width(v) == 0 <==> v == 0
  {
  }

  // ----- Draining the new-data bits -----------------------------------------------------------------------

  lemma {:induction false} TopBit(v: nat, i: nat)
    requires v > 0
    ensures Bit(v, Width(v) - 1) && (i >= Width(v) ==> !Bit(v, i))
  {
    if v / 2 > 0 {
      TopBit(v / 2, if i > 0 then i - 1 else 0);
    } else if i > 0 {
      NoBits(i - 1);
    }
  }

  lemma {:induction false} NoBits(i: nat)
    ensures !Bit(0, i)
  {
    if i > 0 { NoBits(i - 1); }
  }

  /** Clearing the top bit leaves the others as they were. */
  lemma {:induction false} ClearTop(v: nat, i: nat)
    requires v > 0
    ensures Width(v) > 0 && Pow2(Width(v) - 1) <= v
    ensures Bit(v - Pow2(Width(v) - 1), i) <==> Bit(v, i) && i != Width(v) - 1
    decreases v
  {
    hide Width, Pow2;
    TopIsEven(v);
    if v == 1 {
      NoBits(i);
      if i > 0 { NoBits(i - 1); }
    } else {
      Halves(v, Pow2(Width(v / 2) - 1));
      if i > 0 { ClearTop(v / 2, i - 1); }
    }
  }

  lemma Halves(v: nat, half: nat)
    requires 2 * half <= v
    ensures (v - 2 * half) / 2 == v / 2 - half && (v - 2 * half) % 2 == v % 2
  {
  }

  /** Above one, the top bit halves with the number. */
  lemma TopIsEven(v: nat)
    requires v > 0
    ensures Width(v) == Width(v / 2) + 1 && Pow2(Width(v) - 1) <= v && (v == 1 ==> Width(v) == 1 && Pow2(0) == 1)
    ensures v > 1 ==> Width(v / 2) > 0 && Pow2(Width(v) - 1) == 2 * Pow2(Width(v / 2) - 1)
  {
    WidthBounds(v);
  }

  /** A write of one bit to the first or second new-data register. */
  datatype Ack = Ack(second: bool, mask: nat)

  function AckFor(i: nat): Ack {
    if i < 32 then Ack(false, Pow2(i)) else Ack(true, Pow2(i - 32))
  }

  predicate Descending(s: seq<nat>) {
    forall a, b :: 0 <= a < b < |s| ==> s[a] > s[b]
  }

  /**
   * The loop of ProcessRxBuffer: it ends, visits exactly the buffers whose new-data bit was set, each once and
   * in descending order, and acknowledges each in its own register.
   */
  method DrainRxBuffers(ndat1: nat, ndat2: nat) returns (visited: seq<nat>, acks: seq<Ack>)
    requires ndat1 < 0x1_0000_0000 && ndat2 < 0x1_0000_0000
    ensures forall i :: i in visited <==> Bit(ndat2 * 0x1_0000_0000 + ndat1, i)
    ensures Descending(visited)
    ensures |acks| == |visited| && forall k :: 0 <= k < |acks| ==> acks[k] == AckFor(visited[k])
  {
    hide Bit, Width, Pow2;
    var ndat: nat := ndat2 * 0x1_0000_0000 + ndat1;
    ghost var all: nat := ndat;
    visited, acks := [], [];
    while ndat != 0
      invariant ndat < 0x1_0000_0000_0000_0000
      invariant forall i :: Bit(all, i) <==> i in visited || Bit(ndat, i)
      invariant forall k :: 0 <= k < |visited| ==> visited[k] >= Width(ndat)
      invariant Descending(visited)
      invariant |acks| == |visited| && forall k :: 0 <= k < |acks| ==> acks[k] == AckFor(visited[k])
      decreases ndat
    {
      var top := GetMsb(ndat);
      WidthPositive(ndat);
      Narrower(ndat);
      ghost var rest: nat := ndat - Pow2(top);
      forall i ensures Bit(rest, i) <==> Bit(ndat, i) && i != top { ClearTop(ndat, i); }
      TopBit(ndat, 0);
      visited, acks := visited + [top], acks + [AckFor(top)];
      ndat := ndat - Pow2(top);
    }
    forall i ensures !Bit(0, i) { NoBits(i); }
  }

  lemma Narrower(v: nat)
    requires v > 0
    ensures Pow2(Width(v) - 1) <= v && Width(v - Pow2(Width(v) - 1)) <= Width(v) - 1
  {
    WidthBounds(v);
    assert Pow2(Width(v)) == 2 * Pow2(Width(v) - 1);
    WidthAtMost(v - Pow2(Width(v) - 1), Width(v) - 1);
  }
}
