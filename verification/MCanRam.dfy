/** Message RAM of the CAN controller: section start addresses, element addresses and the filter elements. */
module MCanRam {

  /** Kinds of elements, in the order of their sections. */
  datatype Kind = StdFilter | ExtFilter | Fifo0 | Fifo1 | RxBuffer | TxEvent | TxBuffer

  datatype Config = Config(
    stdFilters: nat, extFilters: nat, fifo0: nat, fifo1: nat, rxBuffers: nat, txBuffers: nat, dataSizeCode: nat)
  {
    predicate Valid() {
      dataSizeCode < 8
    }
  }

  /** Can_44_TCAN4x5x_MCAN_ROBufferSizeFD */
  function DataSize(code: nat): (n: nat)
    requires code < 8
    ensures n % 4 == 0 && 8 <= n <= 64
  {
    [8, 12, 16, 20, 24, 32, 48, 64][code]
  }

  /** Bytes that one element occupies. */
  function Size(c: Config, k: Kind): (n: nat)
    requires c.Valid()
    ensures n % 4 == 0 && n > 0
  {
    match k
    case StdFilter => 4
    case ExtFilter => 8
    case TxEvent => 8
    case _ => DataSize(c.dataSizeCode) + 8
  }

  /** Configured number of elements; the transmit event FIFO is as long as the transmit buffers. */
  function Count(c: Config, k: Kind): nat {
    match k
    case StdFilter => c.stdFilters
    case ExtFilter => c.extFilters
    case Fifo0 => c.fifo0
    case Fifo1 => c.fifo1
    case RxBuffer => c.rxBuffers
    case TxEvent => c.txBuffers
    case TxBuffer => c.txBuffers
  }

  function Rank(k: Kind): nat {
    match k
    case StdFilter => 0
    case ExtFilter => 1
    case Fifo0 => 2
    case Fifo1 => 3
    case RxBuffer => 4
    case TxEvent => 5
    case TxBuffer => 6
  }

  /** Start addresses as the driver records them. */
  datatype Starts = Starts(ext: nat, fifo0: nat, fifo1: nat, rxBuffer: nat, txEvent: nat, txBuffer: nat) {
    function Of(k: Kind): nat {
      match k
      case StdFilter => 0
      case ExtFilter => ext
      case Fifo0 => fifo0
      case Fifo1 => fifo1
      case RxBuffer => rxBuffer
      case TxEvent => txEvent
      case TxBuffer => txBuffer
    }
  }

  /** Words that a section occupies. */
  ghost function Words(c: Config, k: Kind): nat
    requires c.Valid()
  {
    Count(c, k) * (Size(c, k) / 4)
  }

  /** Words of all sections before this one. */
  ghost function Before(c: Config, k: Kind): nat
    requires c.Valid()
    decreases Rank(k)
  {
    match k
    case StdFilter => 0
    case ExtFilter => Before(c, StdFilter) + Words(c, StdFilter)
    case Fifo0 => Before(c, ExtFilter) + Words(c, ExtFilter)
    case Fifo1 => Before(c, Fifo0) + Words(c, Fifo0)
    case RxBuffer => Before(c, Fifo1) + Words(c, Fifo1)
    case TxEvent => Before(c, RxBuffer) + Words(c, RxBuffer)
    case TxBuffer => Before(c, TxEvent) + Words(c, TxEvent)
  }

  /** Each section begins where the one before ends. */
  ghost predicate Packed(c: Config, s: Starts)
    requires c.Valid()
  {
    forall k: Kind :: s.Of(k) == 4 * Before(c, k)
  }

  lemma WordsAreBytes(n: nat, size: nat)
    requires size % 4 == 0
    ensures 4 * (n * (size / 4)) == n * size
  {
    var q := size / 4;
    assert size == 4 * q;
  }

  /** Can_44_TCAN4x5x_MCAN_MessageRAM_Init accumulates the next address section by section. */
  method MessageRamInit(c: Config) returns (s: Starts)
    requires c.Valid()
    ensures Packed(c, s)
  {
    forall k: Kind ensures 4 * Words(c, k) == Count(c, k) * Size(c, k) { WordsAreBytes(Count(c, k), Size(c, k)); }
    hide Words;
    var next: nat := 0;
    next := next + c.stdFilters * 4;
    var ext := next;
    next := next + c.extFilters * 8;
    var fifo0 := next;
    next := next + c.fifo0 * (DataSize(c.dataSizeCode) + 8);
    var fifo1 := next;
    next := next + c.fifo1 * (DataSize(c.dataSizeCode) + 8);
    var rxBuffer := next;
    next := next + c.rxBuffers * (DataSize(c.dataSizeCode) + 8);
    var txEvent := next;
    next := next + c.txBuffers * 8;
    s := Starts(ext, fifo0, fifo1, rxBuffer, txEvent, next);
  }

  /** The address that reads and writes use: word steps from the section start. */
  function Address(c: Config, s: Starts, k: Kind, i: nat): nat
    requires c.Valid()
  {
    match k
    case StdFilter => s.Of(k) + 4 * i
    case ExtFilter => s.Of(k) + 4 * (2 * i)
    case TxEvent => s.Of(k) + 4 * (2 * i)
    case _ => s.Of(k) + 4 * ((2 + DataSize(c.dataSizeCode) / 4) * i)
  }

  /** The word formulas agree with the element size. */
  lemma AddressIsLinear(c: Config, s: Starts, k: Kind, i: nat)
    requires c.Valid()
    ensures Address(c, s, k, i) == s.Of(k) + i * Size(c, k)
  {
    var d := DataSize(c.dataSizeCode);
    assert 4 * ((2 + d / 4) * i) == (4 * (2 + d / 4)) * i == (d + 8) * i;
  }

  lemma Multiples(i: nat, j: nat, size: nat)
    requires i < j
    ensures i * size + size <= j * size
  {
    assert (j - i - 1) * size >= 0;
    assert j * size == i * size + size + (j - i - 1) * size;
  }

  /** An earlier section ends before a later one starts. */
  lemma {:induction false} SectionsOrdered(c: Config, k: Kind, l: Kind)
    requires c.Valid() && Rank(k) < Rank(l)
    ensures Before(c, k) + Words(c, k) <= Before(c, l)
    decreases Rank(l)
  {
    hide Words;
    var p := match l
      case ExtFilter => StdFilter
      case Fifo0 => ExtFilter
      case Fifo1 => Fifo0
      case RxBuffer => Fifo1
      case TxEvent => RxBuffer
      case _ => TxEvent;
    RankSeparates(k, p);
    if k != p { SectionsOrdered(c, k, p); }
  }

  /** First word of an element. */
  ghost function Position(c: Config, k: Kind, i: nat): nat
    requires c.Valid()
  {
    Before(c, k) + i * (Size(c, k) / 4)
  }

  /** An element lies inside its section. */
  lemma Inside(c: Config, s: Starts, k: Kind, i: nat)
    requires c.Valid() && Packed(c, s) && i < Count(c, k)
    ensures Address(c, s, k, i) == 4 * Position(c, k, i) && Size(c, k) == 4 * (Size(c, k) / 4)
    ensures Before(c, k) <= Position(c, k, i) && Position(c, k, i) + Size(c, k) / 4 <= Before(c, k) + Words(c, k)
  {
    hide Size, Count, Before, Address, Packed, Starts.Of;
    StartOf(c, s, k);
    AddressIsLinear(c, s, k, i);
    WordsAreBytes(i, Size(c, k));
    Multiples(i, Count(c, k), Size(c, k) / 4);
  }

  lemma StartOf(c: Config, s: Starts, k: Kind)
    requires c.Valid() && Packed(c, s)
    ensures s.Of(k) == 4 * Before(c, k)
  {
  }

  lemma SameSection(c: Config, k: Kind, i: nat, j: nat)
    requires c.Valid() && i < j
    ensures Position(c, k, i) + Size(c, k) / 4 <= Position(c, k, j)
  {
    Multiples(i, j, Size(c, k) / 4);
  }

  /** Layout: elements are word aligned, and any two different configured elements occupy disjoint bytes. */
  lemma ElementsDisjoint(c: Config, s: Starts, k: Kind, i: nat, l: Kind, j: nat)
    requires c.Valid() && Packed(c, s) && i < Count(c, k) && j < Count(c, l) && (k != l || i != j)
    ensures Address(c, s, k, i) % 4 == 0
    ensures || Address(c, s, k, i) + Size(c, k) <= Address(c, s, l, j)
            || Address(c, s, l, j) + Size(c, l) <= Address(c, s, k, i)
  {
    hide Size, Count, Address, Packed, Words, Before, Position;
    Inside(c, s, k, i);
    Inside(c, s, l, j);
    RankSeparates(k, l);
    if k == l {
      if i < j { SameSection(c, k, i, j); } else { SameSection(c, k, j, i); }
    } else if Rank(k) < Rank(l) {
      SectionsOrdered(c, k, l);
    } else {
      SectionsOrdered(c, l, k);
    }
  }

  lemma RankSeparates(k: Kind, l: Kind)
    ensures Rank(k) == Rank(l) <==> k == l
  {
  }

  // ----- Filters ------------------------------------------------------------------------------------------

  /** One write of filter words to the message RAM. */
  datatype FilterWrite = FilterWrite(kind: Kind, address: nat)

  /** Filters of one id type among the first n. */
  function Standards(filters: seq<bool>, n: nat): (k: nat)
    requires n <= |filters|
    ensures k <= n
  {
    if n == 0 then 0 else Standards(filters, n - 1) + if filters[n - 1] then 1 else 0
  }

  /** An extended filter takes two words, so its uint8 word index starts over after 128 of them. */
  const EXTENDED_WRAP: nat := 128

  /** The slot number of the filter at position n: how many of its type come before it, as far as the index counts. */
  function Index(filters: seq<bool>, n: nat): nat
    requires n < |filters| < 256
  {
    if filters[n] then Standards(filters, n)
    else
      var k := n - Standards(filters, n);
      if k < EXTENDED_WRAP then k else k - EXTENDED_WRAP
  }

  /** The slot that the filter at position n is written to. */
  function Slot(c: Config, s: Starts, filters: seq<bool>, n: nat): FilterWrite
    requires c.Valid() && n < |filters| < 256
  {
    var k := if filters[n] then StdFilter else ExtFilter;
    FilterWrite(k, Address(c, s, k, Index(filters, n)))
  }

  /**
   * ConfigureGlobalFilters with configFilterMasks: true stands for a standard identifier. Both indices are uint8;
   * the extended one counts words.
   */
  method ConfigureGlobalFilters(c: Config, s: Starts, filters: seq<bool>) returns (writes: seq<FilterWrite>)
    requires c.Valid() && |filters| < 256
    ensures |writes| == |filters| && forall n :: 0 <= n < |filters| ==> writes[n] == Slot(c, s, filters, n)
  {
    hide Standards;
    var stdIndex, extIndex := 0, 0;
    writes := [];
    StandardsStep(filters, 0);
    for n := 0 to |filters|
      invariant |writes| == n && forall m :: 0 <= m < n ==> writes[m] == Slot(c, s, filters, m)
      invariant stdIndex == Standards(filters, n) <= n
      invariant var k := n - Standards(filters, n); extIndex == 2 * (if k < EXTENDED_WRAP then k else k - EXTENDED_WRAP)
    {
      StandardsStep(filters, n + 1);
      if filters[n] {
        writes := writes + [FilterWrite(StdFilter, s.Of(StdFilter) + 4 * stdIndex)];
        stdIndex := if stdIndex == 255 then 0 else stdIndex + 1;
      } else {
        writes := writes + [FilterWrite(ExtFilter, s.Of(ExtFilter) + 4 * extIndex)];
        extIndex := if extIndex == 254 then 0 else extIndex + 2;
      }
    }
  }

  lemma StandardsStep(filters: seq<bool>, n: nat)
    requires n <= |filters|
    ensures Standards(filters, n) == if n == 0 then 0 else Standards(filters, n - 1) + if filters[n - 1] then 1 else 0
  {
  }

  lemma {:induction false} ExtendedMonotone(filters: seq<bool>, a: nat, b: nat)
    requires a <= b <= |filters|
    ensures Standards(filters, a) <= Standards(filters, b)
    ensures a - Standards(filters, a) <= b - Standards(filters, b)
    decreases b
  {
    if a < b { ExtendedMonotone(filters, a, b - 1); }
  }

  /** Number of filters of one type. */
  function Total(filters: seq<bool>, standard: bool): nat {
    if standard then Standards(filters, |filters|) else |filters| - Standards(filters, |filters|)
  }

  /** Filters of this type before position n. */
  function Rest(filters: seq<bool>, standard: bool, n: nat): nat
    requires n <= |filters|
  {
    if standard then Standards(filters, n) else n - Standards(filters, n)
  }

  /** Some filter of this type is written to slot i of its section. */
  ghost predicate Used(filters: seq<bool>, standard: bool, i: nat)
    requires |filters| < 256
  {
    exists n :: 0 <= n < |filters| && filters[n] == standard && Index(filters, n) == i
  }

  /** Every filter of one type goes to a configured slot of its section, and every such slot is used. */
  ghost predicate Covered(filters: seq<bool>, standard: bool, slots: nat)
    requires |filters| < 256
  {
    && (forall n :: 0 <= n < |filters| && filters[n] == standard ==> Index(filters, n) < slots)
    && (forall i :: 0 <= i < slots ==> Used(filters, standard, i))
  }

  /** No two filters of one type are written to the same slot. */
  ghost predicate Once(filters: seq<bool>, standard: bool)
    requires |filters| < 256
  {
    forall m, n :: 0 <= m < n < |filters| && filters[m] == filters[n] == standard ==> Index(filters, m) != Index(filters, n)
  }

  /** The position of the filter number i of its type. */
  lemma {:induction false} FilterNumber(filters: seq<bool>, standard: bool, i: nat, n: nat) returns (k: nat)
    requires n <= |filters| && i < Rest(filters, standard, n)
    ensures k < n && filters[k] == standard && Rest(filters, standard, k) == i
    decreases n
  {
    if filters[n - 1] == standard && Rest(filters, standard, n - 1) == i {
      k := n - 1;
    } else {
      k := FilterNumber(filters, standard, i, n - 1);
    }
  }

  lemma RestGrows(filters: seq<bool>, m: nat, n: nat)
    requires m < n <= |filters|
    ensures Rest(filters, filters[m], m) < Rest(filters, filters[m], n)
  {
    ExtendedMonotone(filters, m + 1, n);
  }

  /** Number of slots of one type before the index starts over. */
  function Limit(standard: bool): nat {
    if standard then 256 else EXTENDED_WRAP
  }

  lemma OnceExactly(filters: seq<bool>, standard: bool)
    requires |filters| < 256
    ensures Once(filters, standard) <==> Total(filters, standard) <= Limit(standard)
  {
    var total := Total(filters, standard);
    if total > Limit(standard) {
      var a := FilterNumber(filters, standard, 0, |filters|);
      var b := FilterNumber(filters, standard, EXTENDED_WRAP, |filters|);
      if a > b { RestGrows(filters, b, a); }
      assert Index(filters, a) == Index(filters, b) && a != b;
    } else {
      forall m, n | 0 <= m < n < |filters| && filters[m] == filters[n] == standard ensures Index(filters, m) != Index(filters, n) {
        RestGrows(filters, m, n);
        RestGrows(filters, n, |filters|);
      }
    }
  }

  lemma CoveredExactly(filters: seq<bool>, standard: bool, slots: nat)
    requires |filters| < 256 && Total(filters, standard) <= Limit(standard)
    ensures Covered(filters, standard, slots) <==> slots == Total(filters, standard)
  {
    var total := Total(filters, standard);
    forall n | 0 <= n < |filters| && filters[n] == standard ensures Index(filters, n) == Rest(filters, standard, n) < total {
      RestGrows(filters, n, |filters|);
    }
    forall i | 0 <= i < total ensures Used(filters, standard, i) {
      var n := FilterNumber(filters, standard, i, |filters|);
      assert Index(filters, n) == i;
    }
    if slots < total {
      var n := FilterNumber(filters, standard, slots, |filters|);
    } else if slots > total {
      assert !Used(filters, standard, total);
    }
  }

  /**
   * The filter loop writes each configured slot of a type exactly once and inside its own section, if and only if the
   * section has as many slots as there are filters of that type and, for extended ones, these are at most 128.
   */
  lemma SlotsExactly(filters: seq<bool>, standard: bool, slots: nat)
    requires |filters| < 256
    ensures Covered(filters, standard, slots) && Once(filters, standard)
       <==> slots == Total(filters, standard) && Total(filters, standard) <= Limit(standard)
  {
    OnceExactly(filters, standard);
    if Total(filters, standard) <= Limit(standard) { CoveredExactly(filters, standard, slots); }
  }
}
