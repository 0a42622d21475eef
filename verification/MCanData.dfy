/** Data bytes in controller words: what one driver writes into a transmit element, another reads from a receive element. */
module MCanData {
  import opened Bytes
  import opened CanTpConfig

  const LANE: seq<nat> := [1, 0x100, 0x1_0000, 0x100_0000]
  const WORD: nat := 0x1_0000_0000
  const WORDS: nat := 16

  /** Shifting a word right by k bytes and masking it yields byte k. */
  function ByteOf(word: nat, k: nat): byte
    requires k < 4
  {
    word / LANE[k] % 256
  }

  /** The word with byte k replaced. */
  function SetLane(word: nat, k: nat, b: byte): int
    requires k < 4
  {
    word - ByteOf(word, k) * LANE[k] + b * LANE[k]
  }

  lemma Digits(b0: nat, b1: nat, b2: nat, b3: nat)
    requires b0 < 256 && b1 < 256 && b2 < 256 && b3 < 256
    ensures var v := b0 + 0x100 * b1 + 0x1_0000 * b2 + 0x100_0000 * b3;
            v < WORD && ByteOf(v, 0) == b0 && ByteOf(v, 1) == b1 && ByteOf(v, 2) == b2 && ByteOf(v, 3) == b3
  {
    var v := b0 + 0x100 * b1 + 0x1_0000 * b2 + 0x100_0000 * b3;
    assert v / 0x100 == b1 + 0x100 * b2 + 0x1_0000 * b3;
    assert v / 0x1_0000 == b2 + 0x100 * b3;
    assert v / 0x100_0000 == b3;
  }

  /** A word is made of its four bytes. */
  lemma Composed(v: nat)
    requires v < WORD
    ensures v == ByteOf(v, 0) as nat + 0x100 * ByteOf(v, 1) as nat + 0x1_0000 * ByteOf(v, 2) as nat + 0x100_0000 * ByteOf(v, 3) as nat
  {
    var a, b, c := v / 0x100, v / 0x1_0000, v / 0x100_0000;
    assert a / 0x100 == b && b / 0x100 == c;
    assert v == 0x100 * a + v % 0x100 && a == 0x100 * b + a % 0x100 && b == 0x100 * c + b % 0x100;
  }

  /** Byte j of the word, with byte k replaced. */
  function Swapped(v: nat, k: nat, b: byte, j: nat): byte
    requires k < 4 && j < 4
  {
    if j == k then b else ByteOf(v, j)
  }

  lemma SetLaneSum(v: nat, k: nat, b: byte)
    requires v < WORD && k < 4
    ensures SetLane(v, k, b) == Swapped(v, k, b, 0) as int + 0x100 * Swapped(v, k, b, 1) as int
                                + 0x1_0000 * Swapped(v, k, b, 2) as int + 0x100_0000 * Swapped(v, k, b, 3) as int
  {
    hide ByteOf;
    Composed(v);
    if k == 0 {
      assert LANE[k] == 1;
    } else if k == 1 {
      assert LANE[k] == 0x100;
    } else if k == 2 {
      assert LANE[k] == 0x1_0000;
    } else {
      assert LANE[k] == 0x100_0000;
    }
  }

  /** Replacing one byte leaves the other three alone. */
  lemma SetLaneBytes(v: nat, k: nat, b: byte)
    requires v < WORD && k < 4
    ensures var w := SetLane(v, k, b);
            && 0 <= w < WORD && ByteOf(w, 0) == Swapped(v, k, b, 0) && ByteOf(w, 1) == Swapped(v, k, b, 1)
            && ByteOf(w, 2) == Swapped(v, k, b, 2) && ByteOf(w, 3) == Swapped(v, k, b, 3)
  {
    hide ByteOf, SetLane, Swapped;
    SetLaneSum(v, k, b);
    Digits(Swapped(v, k, b, 0), Swapped(v, k, b, 1), Swapped(v, k, b, 2), Swapped(v, k, b, 3));
  }

  /** Byte i of the data area. */
  function DataByte(words: seq<nat>, i: nat): byte
    requires |words| == WORDS && i < 4 * WORDS
  {
    ByteOf(words[i / 4], i % 4)
  }

  ghost predicate AreWords(words: seq<nat>) {
    |words| == WORDS && forall w :: 0 <= w < WORDS ==> words[w] < WORD
  }

  /** Byte i of the data area is replaced and every other byte is as it was. */
  ghost predicate Replaced(before: seq<nat>, after: seq<nat>, i: nat, b: byte) {
    && AreWords(before) && AreWords(after) && i < 4 * WORDS
    && forall j :: 0 <= j < 4 * WORDS ==> DataByte(after, j) == if j == i then b else DataByte(before, j)
  }

  lemma ReplaceByte(words: seq<nat>, i: nat, b: byte)
    requires AreWords(words) && i < 4 * WORDS
    ensures var w := SetLane(words[i / 4], i % 4, b); 0 <= w && Replaced(words, words[i / 4 := w], i, b)
  {
    SetLaneBytes(words[i / 4], i % 4, b);
    var w: nat := SetLane(words[i / 4], i % 4, b);
    var after := words[i / 4 := w];
    hide ByteOf, SetLane;
    forall j | 0 <= j < 4 * WORDS ensures DataByte(after, j) == if j == i then b else DataByte(words, j) {
      assert j / 4 == i / 4 && j != i ==> j % 4 != i % 4;
    }
  }

  /** The frame that leaves the controller: the payload, filled up to the length of its data length code. */
  function Transmitted(sdu: bytes, fill: byte): (f: bytes)
    requires |sdu| <= MAX_NPDU
    ensures |f| == ConvertCanDlc(ConvertToDlc(|sdu|)) && sdu <= f
  {
    sdu + Fill(ConvertCanDlc(ConvertToDlc(|sdu|)) - |sdu|, fill)
  }

  /** memset of the first n bytes. */
  method ClearBytes(words: array<nat>, n: nat)
    requires AreWords(words[..]) && n <= 4 * WORDS
    modifies words
    ensures AreWords(words[..])
    ensures forall i :: 0 <= i < 4 * WORDS ==> DataByte(words[..], i) == if i < n then 0 else DataByte(old(words[..]), i)
  {
    hide ByteOf, SetLane, DataByte;
    for i := 0 to n
      invariant AreWords(words[..])
      invariant forall j :: 0 <= j < 4 * WORDS ==> DataByte(words[..], j) == if j < i then 0 else DataByte(old(words[..]), j)
    {
      ghost var before := words[..];
      ReplaceByte(before, i, 0);
      words[i / 4] := SetLane(words[i / 4], i % 4, 0);
      assert words[..] == before[i / 4 := words[i / 4]];
    }
  }

  /** Bits or-ed into a cleared byte are added. */
  lemma OrIntoZero(v: nat, k: nat, b: byte)
    requires k < 4 && ByteOf(v, k) == 0
    ensures SetLane(v, k, b) == v + b as nat * LANE[k]
  {
  }

  /** Store the data bytes of a transmit element: cleared byte by byte, then or-ed in; bytes behind the frame stay stale. */
  method StoreBytes(sdu: bytes, fill: byte, words: array<nat>) returns (n: nat)
    requires |sdu| <= MAX_NPDU && AreWords(words[..])
    modifies words
    ensures AreWords(words[..]) && n == |Transmitted(sdu, fill)|
    ensures forall i :: 0 <= i < 4 * WORDS ==>
              DataByte(words[..], i) == if i < n then Transmitted(sdu, fill)[i] else DataByte(old(words[..]), i)
  {
    hide ByteOf, SetLane, DataByte;
    n := ConvertCanDlc(ConvertToDlc(|sdu|));
    ghost var f := Transmitted(sdu, fill);
    ClearBytes(words, n);
    ghost var cleared := words[..];
    for i := 0 to n
      invariant AreWords(words[..])
      invariant forall j :: 0 <= j < 4 * WORDS ==> DataByte(words[..], j) == if j < i then f[j] else DataByte(cleared, j)
    {
      var data := if i >= |sdu| then fill else sdu[i];
      ghost var before := words[..];
      ReplaceByte(before, i, data);
      IsCleared(before, i);
      OrIntoZero(words[i / 4], i % 4, data);
      words[i / 4] := words[i / 4] + data as nat * LANE[i % 4];
      assert words[..] == before[i / 4 := words[i / 4]];
    }
  }

  lemma IsCleared(words: seq<nat>, i: nat)
    requires AreWords(words) && i < 4 * WORDS && DataByte(words, i) == 0
    ensures ByteOf(words[i / 4], i % 4) == 0
  {
  }

  /** Read the data bytes of a receive element with this data length code. */
  method LoadBytes(dlc: nat, words: seq<nat>) returns (data: bytes)
    requires dlc <= 15 && |words| == WORDS
    ensures |data| == ConvertCanDlc(dlc) && forall i :: 0 <= i < |data| ==> data[i] == DataByte(words, i)
  {
    data := [];
    for i := 0 to ConvertCanDlc(dlc)
      invariant |data| == i && forall j :: 0 <= j < i ==> data[j] == DataByte(words, j)
    {
      data := data + [ByteOf(words[i / 4], i % 4)];
    }
  }

  /**
   * From driver to driver: a frame stored by one controller, over whatever its buffer held, and loaded by another
   * arrives unchanged, grown at most by fill bytes. This is what the bus between two transport layers is taken to do.
   */
  method Transfer(sdu: bytes, fill: byte, words: array<nat>) returns (got: bytes)
    requires |sdu| <= MAX_NPDU && AreWords(words[..])
    modifies words
    ensures got == Transmitted(sdu, fill) && OnWire(sdu, got)
  {
    hide DataByte;
    var n := StoreBytes(sdu, fill, words);
    got := LoadBytes(ConvertToDlc(|sdu|), words[..]);
    assert got == Transmitted(sdu, fill);
  }
}
