/** The frame checksum of the wire protocol: CRC-32 (IEEE 802.3, clause 3.2.9), reflected form.

    The checksum register wraps a 32-bit vector, so every shift, exclusive-or and complement below is
    the machine operation.  The main results are about error detection: the register is an
    injective function of its previous value, so it never forgets a difference (`StateKeepsDifference`),
    and any corruption confined to four consecutive bytes changes it (`BurstChangesState`), also when
    the corruption straddles the boundary between data and transmitted checksum
    (`ChecksumHoldsIffResidue`). */
module Crc {
  type Byte = bv8

  datatype Register = Register(bits: bv32)

  const POLYNOMIAL: bv32 := 0xEDB88320
  const ALL_ONES: Register := Register(0xFFFF_FFFF)

  /** One shift-and-xor round on the register; `MaskSelects` relates it to the branch-free form of the code. */
  function Round(x: Register): Register {
    if x.bits & 1 == 0 then Register(x.bits >> 1) else Register((x.bits >> 1) ^ POLYNOMIAL)
  }

  /** Negating the low bit gives a mask of all zeros or all ones. */
  lemma MaskSelects(c: bv32)
    ensures (c >> 1) ^ (POLYNOMIAL & (0 - (c & 1))) == Round(Register(c)).bits
  {
    if c & 1 == 0 {
      assert POLYNOMIAL & (0 - (c & 1)) == 0;
    } else {
      assert c & 1 == 1;
      assert POLYNOMIAL & (0 - (c & 1)) == POLYNOMIAL;
    }
  }

  function Xor(x: Register, y: Register): Register {
    Register(x.bits ^ y.bits)
  }

  function Complement(x: Register): Register {
    Register(!x.bits)
  }

  function OfByte(b: Byte): Register {
    Register(b as bv32)
  }

  function Rounds(x: Register, n: nat): Register
    decreases n
  {
    if n == 0 then x else Rounds(Round(x), n - 1)
  }

  function Absorb(x: Register, b: Byte): Register {
    Rounds(Xor(x, OfByte(b)), 8)
  }

  /** The register after all of `data`, started from `x`. */
  function State(x: Register, data: seq<Byte>): Register
    decreases |data|
  {
    if data == [] then x else State(Absorb(x, data[0]), data[1..])
  }

  function Crc32(data: seq<Byte>): Register {
    Complement(State(ALL_ONES, data))
  }

  /** The byte loop with its inner loop of eight rounds. */
  method ComputeCrc32(data: array<Byte>, len: nat) returns (crc: Register)
    requires len <= data.Length
    ensures crc == Crc32(data[..len])
  {
    hide Round, Xor, OfByte, Complement;
    crc := ALL_ONES;
    for i := 0 to len
      invariant crc == State(ALL_ONES, data[..i])
    {
      ghost var before := crc;
      crc := Xor(crc, OfByte(data[i]));
      for j := 0 to 8
        invariant Rounds(crc, 8 - j) == Absorb(before, data[i])
      {
        MaskSelects(crc.bits);
        crc := Register((crc.bits >> 1) ^ (POLYNOMIAL & (0 - (crc.bits & 1))));
      }
      StateOfConcatenation(ALL_ONES, data[..i], [data[i]]);
      assert data[..i + 1] == data[..i] + [data[i]];
    }
    assert data[..len] == data[..len];
    crc := Complement(crc);
  }

  // ---------------------------------------------------------------------------------------------
  // The register never forgets a difference
  // ---------------------------------------------------------------------------------------------

  lemma {:induction false} StateOfConcatenation(x: Register, a: seq<Byte>, b: seq<Byte>)
    ensures State(x, a + b) == State(State(x, a), b)
    decreases |a|
  {
    hide Absorb;
    if a == [] {
      assert a + b == b;
    } else {
      assert (a + b)[1..] == a[1..] + b;
      StateOfConcatenation(Absorb(x, a[0]), a[1..], b);
    }
  }

  function Half(x: Register): Register {
    Register(x.bits >> 1)
  }

  function Double(x: Register): Register {
    Register(x.bits << 1)
  }

  function SetLow(x: Register): Register {
    Register(x.bits | 1)
  }

  predicate Even(x: Register) {
    x.bits & 1 == 0
  }

  predicate TopClear(x: Register) {
    x.bits & 0x8000_0000 == 0
  }

  lemma RoundCases(x: Register)
    ensures Round(x) == if Even(x) then Half(x) else Xor(Half(x), Register(POLYNOMIAL))
  {
  }

  /** Undoes a round: the polynomial has its top bit set, so the top bit tells which branch was taken. */
  function Unround(y: Register): Register {
    if TopClear(y) then Double(y) else SetLow(Double(Xor(y, Register(POLYNOMIAL))))
  }

  lemma TopOfHalf(x: Register)
    ensures TopClear(Half(x))
  {
  }

  lemma TopOfXor(x: Register)
    requires TopClear(x)
    ensures !TopClear(Xor(x, Register(POLYNOMIAL)))
  {
  }

  lemma XorCancels(x: Register)
    ensures Xor(Xor(x, Register(POLYNOMIAL)), Register(POLYNOMIAL)) == x
  {
  }

  lemma DoubleOfHalf(x: Register)
    ensures x == if Even(x) then Double(Half(x)) else SetLow(Double(Half(x)))
  {
  }

  lemma UnroundRound(x: Register)
    ensures Unround(Round(x)) == x
  {
    hide Round, Xor, Half, Double, SetLow, Even, TopClear;
    RoundCases(x);
    TopOfHalf(x);
    TopOfXor(Half(x));
    XorCancels(Half(x));
    DoubleOfHalf(x);
  }

  lemma RoundInjective(x: Register, y: Register)
    requires x != y
    ensures Round(x) != Round(y)
  {
    hide Round, Unround;
    UnroundRound(x);
    UnroundRound(y);
  }

  lemma XorInjective(x: Register, y: Register, z: Register)
    requires x != y
    ensures Xor(x, z) != Xor(y, z)
    ensures Xor(z, x) != Xor(z, y)
  {
  }

  lemma {:induction false} RoundsInjective(x: Register, y: Register, n: nat)
    requires x != y
    ensures Rounds(x, n) != Rounds(y, n)
    decreases n
  {
    hide Round;
    if n != 0 {
      RoundInjective(x, y);
      RoundsInjective(Round(x), Round(y), n - 1);
    }
  }

  /** Two registers that differ keep differing whatever common data follows. */
  lemma {:induction false} StateKeepsDifference(x: Register, y: Register, data: seq<Byte>)
    requires x != y
    ensures State(x, data) != State(y, data)
    decreases |data|
  {
    hide Xor, Rounds, OfByte;
    if data != [] {
      var z := OfByte(data[0]);
      XorInjective(x, y, z);
      RoundsInjective(Xor(x, z), Xor(y, z), 8);
      StateKeepsDifference(Absorb(x, data[0]), Absorb(y, data[0]), data[1..]);
    }
  }

  // ---------------------------------------------------------------------------------------------
  // Up to four bytes enter the register as one word
  // ---------------------------------------------------------------------------------------------

  function Doubles(x: Register, k: nat): Register
    decreases k
  {
    if k == 0 then x else Doubles(Double(x), k - 1)
  }

  /** Up by one byte. */
  function Lift(x: Register): Register {
    Doubles(x, 8)
  }

  lemma LiftBits(x: Register)
    ensures Lift(x) == Register(x.bits << 8)
  {
    EightDoubles(x);
    hide Doubles, Double, Up;
    var x2 := Double(Double(x));
    var x4 := Double(Double(x2));
    var x6 := Double(Double(x4));
    Up2(x);
    Up2(x2);
    Up2(x4);
    Up2(x6);
    Up4(x);
    Up4(x4);
    Up8(x);
  }

  function Up(x: Register, k: nat): Register {
    if k == 2 then Register(x.bits << 2) else if k == 4 then Register(x.bits << 4) else Register(x.bits << 8)
  }

  lemma Up2(x: Register)
    ensures Double(Double(x)) == Up(x, 2)
  {
  }

  lemma Up4(x: Register)
    ensures Up(Up(x, 2), 2) == Up(x, 4)
  {
  }

  lemma Up8(x: Register)
    ensures Up(Up(x, 4), 4) == Up(x, 8) == Register(x.bits << 8)
  {
  }

  lemma EightDoubles(x: Register)
    ensures Doubles(x, 8) == Double(Double(Double(Double(Double(Double(Double(Double(x))))))))
  {
    hide Double;
    var x1 := Double(x);
    var x2 := Double(x1);
    var x3 := Double(x2);
    var x4 := Double(x3);
    var x5 := Double(x4);
    var x6 := Double(x5);
    var x7 := Double(x6);
    assert Doubles(x, 8) == Doubles(x1, 7) == Doubles(x2, 6) == Doubles(x3, 5) == Doubles(x4, 4);
    assert Doubles(x4, 4) == Doubles(x5, 3) == Doubles(x6, 2) == Doubles(x7, 1) == Doubles(Double(x7), 0);
  }

  /** Little-endian word of at most four bytes. */
  function Word(w: seq<Byte>): Register
    decreases |w|
  {
    if w == [] then Register(0) else Xor(OfByte(w[0]), Lift(Word(w[1..])))
  }

  /** Whether all bits from byte `n` upwards are clear. */
  predicate Fits(x: Register, n: nat) {
    x.bits & (if n == 0 then 0xFFFF_FFFF else if n == 1 then 0xFFFF_FF00 else if n == 2 then 0xFFFF_0000
              else if n == 3 then 0xFF00_0000 else 0) == 0
  }

  lemma FitsStep(b: Byte, rest: Register, n: nat)
    requires n <= 3
    requires Fits(rest, n)
    ensures Fits(Xor(OfByte(b), Lift(rest)), n + 1)
    ensures Fits(rest, 3)
  {
    LiftBits(rest);
    hide Lift;
  }

  lemma JoinInjective(b: Byte, x: Register, c: Byte, y: Register)
    requires Fits(x, 3) && Fits(y, 3)
    requires b != c || x != y
    ensures Xor(OfByte(b), Lift(x)) != Xor(OfByte(c), Lift(y))
  {
    LiftBits(x);
    LiftBits(y);
    hide Lift;
  }

  lemma {:induction false} WordFits(w: seq<Byte>)
    requires |w| <= 4
    ensures Fits(Word(w), |w|)
    ensures |w| <= 3 ==> Fits(Word(w), 3)
    decreases |w|
  {
    if w == [] {
      assert Fits(Register(0), 0) && Fits(Register(0), 3);
    } else {
      WordFits(w[1..]);
      hide Fits, Xor, OfByte, Lift;
      FitsStep(w[0], Word(w[1..]), |w| - 1);
      if |w| <= 3 {
        FitsStep(w[0], Word(w), |w|);
      }
    }
  }

  lemma {:induction false} WordInjective(v: seq<Byte>, w: seq<Byte>)
    requires |v| == |w| <= 4
    requires v != w
    ensures Word(v) != Word(w)
    decreases |v|
  {
    hide Fits, Xor, OfByte, Lift;
    WordFits(v[1..]);
    WordFits(w[1..]);
    if v[0] == w[0] {
      assert v == [v[0]] + v[1..] && w == [w[0]] + w[1..];
      WordInjective(v[1..], w[1..]);
    }
    JoinInjective(v[0], Word(v[1..]), w[0], Word(w[1..]));
  }

  lemma HalfOfXor(x: Register, y: Register)
    ensures Half(Xor(x, y)) == Xor(Half(x), Half(y))
  {
  }

  lemma EvenOfXor(x: Register, y: Register)
    requires Even(y)
    ensures Even(Xor(x, y)) == Even(x)
  {
  }

  lemma XorAssociative(x: Register, y: Register, z: Register)
    ensures Xor(Xor(x, y), z) == Xor(x, Xor(y, z))
  {
  }

  lemma XorCommutative(x: Register, y: Register)
    ensures Xor(x, y) == Xor(y, x)
  {
  }

  lemma XorZero(x: Register)
    ensures Xor(x, Register(0)) == x
  {
  }

  /** Bits that are not yet at the shifting end come down unchanged: xor before a round is xor after it. */
  lemma RoundDelaysXor(x: Register, y: Register)
    requires Even(y)
    ensures Round(Xor(x, y)) == Xor(Round(x), Half(y))
  {
    hide Round, Xor, Half, Even;
    var p := Register(POLYNOMIAL);
    RoundCases(x);
    RoundCases(Xor(x, y));
    EvenOfXor(x, y);
    HalfOfXor(x, y);
    XorAssociative(Half(x), Half(y), p);
    XorAssociative(Half(x), p, Half(y));
    XorCommutative(Half(y), p);
  }

  /** `n` halvings of `x`, all of them of even values. */
  function Halves(x: Register, n: nat): Register
    decreases n
  {
    if n == 0 then x else Halves(Half(x), n - 1)
  }

  predicate AllEven(x: Register, n: nat)
    decreases n
  {
    n == 0 || (Even(x) && AllEven(Half(x), n - 1))
  }

  lemma HalfOfDouble(x: Register)
    requires TopClear(x)
    ensures Even(Double(x)) && Half(Double(x)) == x
  {
  }

  /** Whether `k` doublings lose no bit. */
  predicate Room(x: Register, k: nat)
    decreases k
  {
    k == 0 || (TopClear(x) && Room(Double(x), k - 1))
  }

  predicate Clear(x: Register, mask: bv32) {
    x.bits & mask == 0
  }

  lemma ClearStep(x: Register, mask: bv32)
    requires Clear(x, mask)
    requires mask & 0x8000_0000 != 0
    ensures TopClear(x) && Clear(Double(x), mask << 1)
  {
  }

  lemma FitsLeavesRoom(x: Register)
    requires Fits(x, 3)
    ensures Room(x, 8)
  {
    assert Clear(x, 0xFF00_0000);
    hide Clear, TopClear, Double, Fits;
    ClearStep(x, 0xFF00_0000);
    var x1 := Double(x);
    ClearStep(x1, 0xFE00_0000);
    var x2 := Double(x1);
    ClearStep(x2, 0xFC00_0000);
    var x3 := Double(x2);
    ClearStep(x3, 0xF800_0000);
    var x4 := Double(x3);
    ClearStep(x4, 0xF000_0000);
    var x5 := Double(x4);
    ClearStep(x5, 0xE000_0000);
    var x6 := Double(x5);
    ClearStep(x6, 0xC000_0000);
    var x7 := Double(x6);
    ClearStep(x7, 0x8000_0000);
    assert Room(x7, 1) && Room(x6, 2) && Room(x5, 3) && Room(x4, 4) && Room(x3, 5) && Room(x2, 6) && Room(x1, 7);
  }

  lemma {:induction false} HalvesOfDoubles(x: Register, k: nat, n: nat)
    requires Room(x, k)
    requires AllEven(x, n)
    ensures AllEven(Doubles(x, k), n + k)
    ensures Halves(Doubles(x, k), n + k) == Halves(x, n)
    decreases k
  {
    hide TopClear, Double, Half, Even;
    if k != 0 {
      HalfOfDouble(x);
      HalvesOfDoubles(Double(x), k - 1, n + 1);
    }
  }

  lemma {:induction false} RoundsDelayXor(x: Register, y: Register, n: nat)
    requires AllEven(y, n)
    ensures Rounds(Xor(x, y), n) == Xor(Rounds(x, n), Halves(y, n))
    decreases n
  {
    hide Xor, Round, Half, Even;
    if n != 0 {
      RoundDelaysXor(x, y);
      RoundsDelayXor(Round(x), Half(y), n - 1);
    }
  }

  lemma {:induction false} RoundsOfSum(x: Register, m: nat, n: nat)
    ensures Rounds(Rounds(x, m), n) == Rounds(x, m + n)
    decreases m
  {
    hide Round;
    if m != 0 {
      RoundsOfSum(Round(x), m - 1, n);
    }
  }

  /** Absorbing up to four bytes is one xor of their word followed by eight rounds for each byte. */
  lemma {:induction false} StateOfShortData(x: Register, w: seq<Byte>)
    requires |w| <= 4
    ensures State(x, w) == Rounds(Xor(x, Word(w)), 8 * |w|)
    decreases |w|
  {
    hide Round, Xor, OfByte, Doubles, Fits, Room;
    if w == [] {
      XorZero(x);
      assert Rounds(x, 0) == x;
    } else {
      var b := OfByte(w[0]);
      var rest := Word(w[1..]);
      StateOfShortData(Absorb(x, w[0]), w[1..]);
      WordFits(w[1..]);
      FitsLeavesRoom(rest);
      HalvesOfDoubles(rest, 8, 0);
      RoundsDelayXor(Xor(x, b), Lift(rest), 8);
      XorAssociative(x, b, Lift(rest));
      RoundsOfSum(Xor(x, Word(w)), 8, 8 * (|w| - 1));
      assert Xor(Absorb(x, w[0]), rest) == Rounds(Xor(x, Word(w)), 8);
    }
  }

  // ---------------------------------------------------------------------------------------------
  // Error detection
  // ---------------------------------------------------------------------------------------------

  /** A corruption confined to at most four consecutive bytes always changes the register. */
  lemma {:induction false} BurstChangesState(x: Register, before: seq<Byte>, v: seq<Byte>, w: seq<Byte>, after: seq<Byte>)
    requires |v| == |w| <= 4
    requires v != w
    ensures State(x, before + v + after) != State(x, before + w + after)
  {
    hide Rounds, Xor, Word;
    var s := State(x, before);
    StateOfConcatenation(x, before, v);
    StateOfConcatenation(x, before, w);
    StateOfShortData(s, v);
    StateOfShortData(s, w);
    WordInjective(v, w);
    XorInjective(Word(v), Word(w), s);
    RoundsInjective(Xor(s, Word(v)), Xor(s, Word(w)), 8 * |v|);
    StateOfConcatenation(x, before + v, after);
    StateOfConcatenation(x, before + w, after);
    StateKeepsDifference(State(x, before + v), State(x, before + w), after);
  }

  /** Four trailer bytes are the checksum of `data` exactly when data and trailer together leave the
      register at one fixed residue. */
  lemma {:induction false} ChecksumHoldsIffResidue(data: seq<Byte>, trailer: seq<Byte>)
    requires |trailer| == 4
    ensures Word(trailer) == Crc32(data) <==> State(ALL_ONES, data + trailer) == Rounds(ALL_ONES, 32)
  {
    hide Rounds, Xor, Word, Complement;
    var s := State(ALL_ONES, data);
    StateOfConcatenation(ALL_ONES, data, trailer);
    StateOfShortData(s, trailer);
    ComplementIsXor(s, Word(trailer));
    if Xor(s, Word(trailer)) != ALL_ONES {
      RoundsInjective(Xor(s, Word(trailer)), ALL_ONES, 32);
    }
  }

  lemma ComplementIsXor(s: Register, w: Register)
    ensures w == Complement(s) <==> Xor(s, w) == ALL_ONES
  {
    XorWithComplement(s);
    hide Xor, Complement, ALL_ONES;
    if w != Complement(s) {
      XorInjective(w, Complement(s), s);
    }
  }

  lemma XorWithComplement(s: Register)
    ensures Xor(s, Complement(s)) == ALL_ONES
  {
  }

  /** Two strings that differ only inside a window of four bytes never share a checksum. */
  lemma {:induction false} BurstChangesChecksum(before: seq<Byte>, v: seq<Byte>, w: seq<Byte>, after: seq<Byte>)
    requires |v| == |w| <= 4
    requires v != w
    ensures Crc32(before + v + after) != Crc32(before + w + after)
  {
    BurstChangesState(ALL_ONES, before, v, w, after);
    ComplementInjective(State(ALL_ONES, before + v + after), State(ALL_ONES, before + w + after));
  }

  lemma ComplementInjective(x: Register, y: Register)
    requires x != y
    ensures Complement(x) != Complement(y)
  {
  }
}
