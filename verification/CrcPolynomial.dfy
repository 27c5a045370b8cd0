/** What the checksum is: the remainder of the message polynomial by the generator polynomial of IEEE 802.3.

    A polynomial over the two-element field is the sequence of its coefficients, highest power first.
    `Remainder` is long division by the generator, which is given by its exponents.  The register of the
    code holds a remainder with the coefficient of the highest power in its lowest bit, and bytes enter
    lowest bit first. */
module CrcPolynomial {
  import opened Crc

  /** Exponents of the generator. */
  const GENERATOR: set<nat> := {32, 26, 23, 22, 16, 12, 11, 10, 8, 7, 5, 4, 2, 1, 0}

  function Generator(): (g: seq<bool>)
    ensures |g| == 33
  {
    seq(33, i requires 0 <= i < 33 => (32 - i) in GENERATOR)
  }

  /** Sum of two polynomials aligned at their highest powers. */
  function Plus(a: seq<bool>, b: seq<bool>): (r: seq<bool>)
    requires |b| <= |a|
    ensures |r| == |a|
    ensures forall i :: 0 <= i < |a| ==> r[i] == if i < |b| then a[i] != b[i] else a[i]
  {
    seq(|a|, i requires 0 <= i < |a| => if i < |b| then a[i] != b[i] else a[i])
  }

  /** Long division: as long as there are more than 32 coefficients, the generator is subtracted if the first
      one is set, and the first one, now zero, is dropped. */
  function Remainder(p: seq<bool>): (r: seq<bool>)
    requires |p| >= 32
    ensures |r| == 32
    decreases |p|
  {
    if |p| == 32 then p
    else if p[0] then Remainder(Plus(p, Generator())[1..])
    else Remainder(p[1..])
  }

  function Zeros(n: nat): (z: seq<bool>)
    ensures |z| == n && forall i :: 0 <= i < n ==> !z[i]
  {
    seq(n, _ => false)
  }

  // ---------------------------------------------------------------------------------------------
  // Bits of a register
  // ---------------------------------------------------------------------------------------------

  /** The `k` lowest bits, lowest first. */
  function Bits(x: Register, k: nat): (b: seq<bool>)
    ensures |b| == k
    decreases k
  {
    if k == 0 then [] else [!Even(x)] + Bits(Half(x), k - 1)
  }

  /** The bits of data in the order in which they enter. */
  function DataBits(data: seq<Byte>): (b: seq<bool>)
    ensures |b| == 8 * |data|
  {
    if data == [] then [] else Bits(OfByte(data[0]), 8) + DataBits(data[1..])
  }

  lemma {:induction false} BitAt(x: Register, k: nat, i: nat)
    requires i < k
    ensures Bits(x, k)[i] == !Even(Halves(x, i))
    decreases k
  {
    hide Even, Half;
    if i > 0 {
      BitAt(Half(x), k - 1, i - 1);
    }
  }

  lemma EvenOfSum(x: Register, y: Register)
    ensures Even(Xor(x, y)) == (Even(x) == Even(y))
  {
  }

  lemma {:induction false} BitsOfXor(x: Register, y: Register, k: nat)
    ensures Bits(Xor(x, y), k) == Plus(Bits(x, k), Bits(y, k))
    decreases k
  {
    hide Even, Half, Xor;
    if k > 0 {
      EvenOfSum(x, y);
      HalfOfXor(x, y);
      BitsOfXor(Half(x), Half(y), k - 1);
      PlusOfHeads(!Even(x), Bits(Half(x), k - 1), !Even(y), Bits(Half(y), k - 1));
    }
  }

  lemma PlusOfHeads(a: bool, s: seq<bool>, b: bool, t: seq<bool>)
    requires |s| == |t|
    ensures Plus([a] + s, [b] + t) == [a != b] + Plus(s, t)
  {
  }

  lemma {:induction false} HalvesOfSum(x: Register, m: nat, n: nat)
    ensures Halves(Halves(x, m), n) == Halves(x, m + n)
    decreases m
  {
    hide Half;
    if m > 0 {
      HalvesOfSum(Half(x), m - 1, n);
    }
  }

  function Down8(x: Register): Register {
    Register(x.bits >> 8)
  }

  function Down2(x: Register): Register {
    Register(x.bits >> 2)
  }

  function Down4(x: Register): Register {
    Register(x.bits >> 4)
  }

  lemma HalfOfHalf(x: Register)
    ensures Half(Half(x)) == Down2(x)
  {
  }

  lemma Down2Twice(x: Register)
    ensures Down2(Down2(x)) == Down4(x)
  {
  }

  lemma Down4Twice(x: Register)
    ensures Down4(Down4(x)) == Down8(x)
  {
  }

  lemma TwoHalves(x: Register)
    ensures Halves(x, 2) == Down2(x)
  {
    HalfOfHalf(x);
    hide Half, Down2;
    assert Halves(Half(x), 1) == Half(Half(x));
  }

  lemma EightHalves(x: Register)
    ensures Halves(x, 8) == Down8(x)
  {
    hide Half, Down2, Down4, Down8, Halves;
    var a := Down2(x);
    var b := Down2(a);
    var c := Down2(b);
    TwoHalves(x);
    TwoHalves(a);
    TwoHalves(b);
    TwoHalves(c);
    HalvesOfSum(x, 2, 2);
    HalvesOfSum(x, 4, 2);
    HalvesOfSum(x, 6, 2);
    Down2Twice(x);
    Down2Twice(b);
    Down4Twice(x);
  }

  lemma TopMoves(x: Register)
    ensures TopClear(x) <==> Clear(Down8(x), 0x0080_0000)
  {
  }

  lemma ThirdMoves(x: Register)
    ensures Clear(x, 0x0080_0000) <==> Clear(Down8(x), 0x0000_8000)
  {
  }

  lemma SecondMoves(x: Register)
    ensures Clear(x, 0x0000_8000) <==> Clear(Down8(x), 0x0000_0080)
  {
  }

  lemma MaskMoves(x: Register, mask: bv32)
    requires mask & 1 == 0
    ensures Clear(x, mask) <==> Clear(Half(x), mask >> 1)
  {
  }

  lemma EvenIsClear(x: Register)
    ensures Clear(x, 1) <==> Even(x)
  {
  }

  /** Bit `i` of a byte is where its mask is. */
  lemma {:induction false} MaskIsBit(x: Register, i: nat, mask: bv32)
    requires i < 8 && mask == MaskOf(i)
    ensures Clear(x, mask) <==> Even(Halves(x, i))
    decreases i
  {
    if i == 0 {
      EvenIsClear(x);
    } else {
      MaskOfLess(i);
      hide MaskOf, Clear, Half, Even;
      MaskMoves(x, mask);
      MaskIsBit(Half(x), i - 1, mask >> 1);
    }
  }

  function MaskOf(i: nat): bv32 {
    match i
    case 0 => 0x01
    case 1 => 0x02
    case 2 => 0x04
    case 3 => 0x08
    case 4 => 0x10
    case 5 => 0x20
    case 6 => 0x40
    case _ => 0x80
  }

  lemma MaskOfLess(i: nat)
    requires 0 < i < 8
    ensures MaskOf(i) & 1 == 0 && MaskOf(i) >> 1 == MaskOf(i - 1)
  {
  }

  /** The last of 32 bits is the top bit. */
  lemma TopBit(x: Register)
    ensures Bits(x, 32)[31] <==> !TopClear(x)
  {
    BitAt(x, 32, 31);
    var a := Down8(x);
    var b := Down8(a);
    var c := Down8(b);
    hide Down8, Even, TopClear, Clear, Half;
    TopMoves(x);
    ThirdMoves(a);
    SecondMoves(b);
    EightHalves(x);
    EightHalves(a);
    EightHalves(b);
    MaskIsBit(c, 7, 0x80);
    HalvesOfSum(x, 8, 8);
    HalvesOfSum(x, 16, 8);
    HalvesOfSum(x, 24, 7);
  }

  lemma BitOfHalf(x: Register, i: nat)
    requires i < 31
    ensures Bits(Half(x), 32)[i] == Bits(x, 32)[i + 1]
  {
    hide Bits, Half, Even;
    BitAt(Half(x), 32, i);
    BitAt(x, 32, i + 1);
    assert Halves(x, i + 1) == Halves(Half(x), i);
  }

  lemma {:induction false} BitsOfHalf(x: Register)
    ensures Bits(Half(x), 32) == Shifted(Bits(x, 32))
  {
    hide Even, Half, TopClear, Bits;
    TopOfHalf(x);
    TopBit(Half(x));
    forall i | 0 <= i < 31
      ensures Bits(Half(x), 32)[i] == Bits(x, 32)[i + 1]
    {
      BitOfHalf(x, i);
    }
  }

  function Shifted(b: seq<bool>): (r: seq<bool>)
    requires |b| == 32
    ensures |r| == 32
  {
    b[1..] + [false]
  }

  lemma LowEight(x: Register)
    ensures forall i :: 0 <= i < 8 ==> Bits(x, 8)[i] == !Clear(x, MaskOf(i))
  {
    hide Bits, Clear, MaskOf, Even, Half;
    forall i | 0 <= i < 8
      ensures Bits(x, 8)[i] == !Clear(x, MaskOf(i))
    {
      BitAt(x, 8, i);
      MaskIsBit(x, i, MaskOf(i));
    }
  }

  /** The eight bits of a byte, by its two hexadecimal digits. */
  lemma ByteIs(x: Register, list: seq<bool>)
    requires |list| == 8
    requires list[0] == !Clear(x, 0x01) && list[1] == !Clear(x, 0x02) && list[2] == !Clear(x, 0x04) && list[3] == !Clear(x, 0x08)
    requires list[4] == !Clear(x, 0x10) && list[5] == !Clear(x, 0x20) && list[6] == !Clear(x, 0x40) && list[7] == !Clear(x, 0x80)
    ensures Bits(x, 8) == list
  {
    hide Bits, Clear;
    LowEight(x);
    assert Bits(x, 8)[0] == list[0] && Bits(x, 8)[1] == list[1] && Bits(x, 8)[2] == list[2] && Bits(x, 8)[3] == list[3];
    assert Bits(x, 8)[4] == list[4] && Bits(x, 8)[5] == list[5] && Bits(x, 8)[6] == list[6] && Bits(x, 8)[7] == list[7];
  }

  lemma {:induction false} BitsInTwo(x: Register, m: nat, n: nat)
    ensures Bits(x, m + n) == Bits(x, m) + Bits(Halves(x, m), n)
    decreases m
  {
    hide Even, Half;
    if m > 0 {
      BitsInTwo(Half(x), m - 1, n);
    }
  }

  /** The constant of the code is the generator without its leading term, highest power in the lowest bit. */
  lemma PolynomialIsGenerator()
    ensures Bits(Register(POLYNOMIAL), 32) == Generator()[1..]
  {
    var a := Register(POLYNOMIAL);
    var b := Register(0x00ED_B883);
    var c := Register(0x0000_EDB8);
    var d := Register(0x0000_00ED);
    assert Down8(a) == b && Down8(b) == c && Down8(c) == d;
    ByteIs(a, [false, false, false, false, false, true, false, false]);
    ByteIs(b, [true, true, false, false, false, false, false, true]);
    ByteIs(c, [false, false, false, true, true, true, false, true]);
    ByteIs(d, [true, false, true, true, false, true, true, true]);
    hide Bits, Down8, Clear;
    BitsByBytes(a, b, c, d);
    GeneratorList();
  }

  lemma BitsByBytes(a: Register, b: Register, c: Register, d: Register)
    requires Down8(a) == b && Down8(b) == c && Down8(c) == d
    ensures Bits(a, 32) == Bits(a, 8) + (Bits(b, 8) + (Bits(c, 8) + Bits(d, 8)))
  {
    hide Bits, Down8, Halves;
    EightHalves(a);
    EightHalves(b);
    EightHalves(c);
    BitsInTwo(a, 8, 24);
    BitsInTwo(b, 8, 16);
    BitsInTwo(c, 8, 8);
  }

  lemma GeneratorList()
    ensures Generator()[1..] == [false, false, false, false, false, true, false, false]
                                + ([true, true, false, false, false, false, false, true]
                                + ([false, false, false, true, true, true, false, true]
                                + [true, false, true, true, false, true, true, true]))
  {
  }

  // ---------------------------------------------------------------------------------------------
  // Rounds are steps of the division
  // ---------------------------------------------------------------------------------------------

  /** One step of the division on the 32 leading coefficients, when the next coefficient of the message is
      added to the first of them. */
  function Step(b: seq<bool>, bit: bool): (r: seq<bool>)
    requires |b| == 32
    ensures |r| == 32
  {
    if b[0] != bit then Plus(Shifted(b), Generator()[1..]) else Shifted(b)
  }

  function Fold(b: seq<bool>, t: seq<bool>): (r: seq<bool>)
    requires |b| == 32
    ensures |r| == 32
    decreases |t|
  {
    if t == [] then b else Fold(Step(b, t[0]), t[1..])
  }

  lemma BitsOfRound(x: Register)
    ensures Bits(Round(x), 32) == Step(Bits(x, 32), false)
  {
    RoundCases(x);
    BitsOfHalf(x);
    BitsOfXor(Half(x), Register(POLYNOMIAL), 32);
    PolynomialIsGenerator();
    assert Bits(x, 32)[0] == !Even(x);
    hide Bits, Round, Half, Xor, Even, Generator, Shifted;
  }

  /** Long division of a message shifted up by 32, with `b` added to its leading coefficients. */
  lemma {:induction false} DivisionIsFold(b: seq<bool>, t: seq<bool>)
    requires |b| == 32
    ensures Remainder(Plus(t + Zeros(32), b)) == Fold(b, t)
    decreases |t|
  {
    var p := Plus(t + Zeros(32), b);
    if t == [] {
      assert p == b;
    } else {
      DivisionIsFold(Step(b, t[0]), t[1..]);
      DivisionStep(b, t);
    }
  }

  lemma DivisionStep(b: seq<bool>, t: seq<bool>)
    requires |b| == 32 && t != []
    ensures var p := Plus(t + Zeros(32), b);
            (if p[0] then Plus(p, Generator())[1..] else p[1..]) == Plus(t[1..] + Zeros(32), Step(b, t[0]))
  {
    var p := Plus(t + Zeros(32), b);
    assert Generator()[0];
    hide Generator;
    var q := if p[0] then Plus(p, Generator())[1..] else p[1..];
    var r := Plus(t[1..] + Zeros(32), Step(b, t[0]));
    assert |q| == |r|;
    forall i | 0 <= i < |q|
      ensures q[i] == r[i]
    {
      assert (t[1..] + Zeros(32))[i] == (t + Zeros(32))[i + 1];
      assert i < 31 ==> Shifted(b)[i] == b[i + 1];
      assert Shifted(b)[31] == false;
    }
  }

  /** Rounds of a register into which some bits were already added take those bits in one by one. */
  lemma {:induction false} RoundsAreFold(y: Register, b: seq<bool>, u: seq<bool>)
    requires |b| == 32 && |u| <= 32
    requires Bits(y, 32) == Plus(b, u)
    ensures Bits(Rounds(y, |u|), 32) == Fold(b, u)
    decreases |u|
  {
    hide Bits, Round, Step, Plus;
    if u == [] {
      PlusNothing(b);
    } else {
      BitsOfRound(y);
      StepOfSum(b, u);
      RoundsAreFold(Round(y), Step(b, u[0]), u[1..]);
    }
  }

  lemma PlusNothing(b: seq<bool>)
    ensures Plus(b, []) == b
  {
  }

  lemma StepOfSum(b: seq<bool>, u: seq<bool>)
    requires |b| == 32 && 1 <= |u| <= 32
    ensures Step(Plus(b, u), false) == Plus(Step(b, u[0]), u[1..])
  {
    hide Generator;
    var q, r := Step(Plus(b, u), false), Plus(Step(b, u[0]), u[1..]);
    forall i | 0 <= i < 32
      ensures q[i] == r[i]
    {
      assert i < 31 ==> Shifted(b)[i] == b[i + 1] && Shifted(Plus(b, u))[i] == Plus(b, u)[i + 1];
    }
  }

  lemma ByteLeavesNothing(byte: Byte)
    ensures Down8(OfByte(byte)) == Register(0)
  {
  }

  lemma {:induction false} BitsOfZero(k: nat)
    ensures Bits(Register(0), k) == Zeros(k)
    decreases k
  {
    if k > 0 {
      assert Half(Register(0)) == Register(0) && Even(Register(0));
      hide Half, Even;
      BitsOfZero(k - 1);
    }
  }

  lemma {:induction false} AbsorbIsFold(x: Register, byte: Byte)
    ensures Bits(Absorb(x, byte), 32) == Fold(Bits(x, 32), Bits(OfByte(byte), 8))
  {
    ByteLeavesNothing(byte);
    hide OfByte, Down8, Half, Even, Xor, Bits;
    var o := OfByte(byte);
    EightHalves(o);
    BitsInTwo(o, 8, 24);
    BitsOfZero(24);
    BitsOfXor(x, o, 32);
    assert Plus(Bits(x, 32), Bits(o, 32)) == Plus(Bits(x, 32), Bits(o, 8));
    RoundsAreFold(Xor(x, o), Bits(x, 32), Bits(o, 8));
  }

  lemma {:induction false} FoldOfConcatenation(b: seq<bool>, s: seq<bool>, t: seq<bool>)
    requires |b| == 32
    ensures Fold(b, s + t) == Fold(Fold(b, s), t)
    decreases |s|
  {
    hide Step;
    if s == [] {
      assert s + t == t;
    } else {
      assert (s + t)[1..] == s[1..] + t;
      FoldOfConcatenation(Step(b, s[0]), s[1..], t);
    }
  }

  lemma {:induction false} StateIsFold(x: Register, data: seq<Byte>)
    ensures Bits(State(x, data), 32) == Fold(Bits(x, 32), DataBits(data))
    decreases |data|
  {
    if data != [] {
      hide Bits, Absorb, OfByte, Fold;
      AbsorbIsFold(x, data[0]);
      StateIsFold(Absorb(x, data[0]), data[1..]);
      FoldOfConcatenation(Bits(x, 32), Bits(OfByte(data[0]), 8), DataBits(data[1..]));
    } else {
      hide Bits;
    }
  }

  /** The register after some data is the remainder, by the IEEE generator, of the data shifted up by 32 with the
      starting value added to the leading coefficients. */
  lemma {:induction false} StateIsRemainder(x: Register, data: seq<Byte>)
    ensures Bits(State(x, data), 32) == Remainder(Plus(DataBits(data) + Zeros(32), Bits(x, 32)))
  {
    hide Bits, State, Remainder, Fold;
    StateIsFold(x, data);
    DivisionIsFold(Bits(x, 32), DataBits(data));
  }

  function Negated(b: seq<bool>): (r: seq<bool>)
    ensures |r| == |b| && forall i :: 0 <= i < |b| ==> r[i] == !b[i]
  {
    seq(|b|, i requires 0 <= i < |b| => !b[i])
  }

  lemma OnesByBytes()
    ensures forall i :: 0 <= i < 32 ==> Bits(ALL_ONES, 32)[i]
  {
    var a, b, c, d := ALL_ONES, Register(0x00FF_FFFF), Register(0x0000_FFFF), Register(0x0000_00FF);
    assert Down8(a) == b && Down8(b) == c && Down8(c) == d;
    var ones := [true, true, true, true, true, true, true, true];
    ByteIs(a, ones);
    ByteIs(b, ones);
    ByteIs(c, ones);
    ByteIs(d, ones);
    hide Bits, Down8, Clear;
    BitsByBytes(a, b, c, d);
    AllSet(ones);
  }

  lemma AllSet(s: seq<bool>)
    requires |s| == 8 && forall i :: 0 <= i < 8 ==> s[i]
    ensures forall i :: 0 <= i < 32 ==> (s + (s + (s + s)))[i]
  {
  }

  lemma {:induction false} BitsOfComplement(x: Register)
    ensures Bits(Complement(x), 32) == Negated(Bits(x, 32))
  {
    assert Complement(x) == Xor(x, ALL_ONES);
    BitsOfXor(x, ALL_ONES, 32);
    OnesByBytes();
    hide Bits, Xor, Complement;
  }

  /** The checksum: the complemented remainder of the data shifted up by 32 with its first 32 bits complemented. */
  lemma {:induction false} ChecksumIsRemainder(data: seq<Byte>)
    ensures Bits(Crc32(data), 32) == Negated(Remainder(Plus(DataBits(data) + Zeros(32), Negated(Zeros(32)))))
  {
    StateIsRemainder(ALL_ONES, data);
    BitsOfComplement(State(ALL_ONES, data));
    OnesByBytes();
    hide Bits, State, Remainder, Complement;
    assert Bits(ALL_ONES, 32) == Negated(Zeros(32));
  }

  // ---------------------------------------------------------------------------------------------
  // Known values
  // ---------------------------------------------------------------------------------------------

  lemma EightRounds(r0: Register, r1: Register, r2: Register, r3: Register, r4: Register, r5: Register, r6: Register, r7: Register, r8: Register)
    requires Round(r0) == r1 && Round(r1) == r2 && Round(r2) == r3 && Round(r3) == r4
    requires Round(r4) == r5 && Round(r5) == r6 && Round(r6) == r7 && Round(r7) == r8
    ensures Rounds(r0, 8) == r8
  {
    hide Round;
    assert Rounds(r7, 1) == r8 && Rounds(r6, 2) == r8 && Rounds(r5, 3) == r8 && Rounds(r4, 4) == r8;
    assert Rounds(r3, 5) == r8 && Rounds(r2, 6) == r8 && Rounds(r1, 7) == r8;
  }

  lemma ResiduePart1()
    ensures Rounds(Register(0xffffffff), 8) == Register(0x2dfd1072)
  {
    assert Round(Register(0xffffffff)) == Register(0x92477cdf);
    assert Round(Register(0x92477cdf)) == Register(0xa49b3d4f);
    assert Round(Register(0xa49b3d4f)) == Register(0xbff51d87);
    assert Round(Register(0xbff51d87)) == Register(0xb2420de3);
    assert Round(Register(0xb2420de3)) == Register(0xb49985d1);
    assert Round(Register(0xb49985d1)) == Register(0xb7f441c8);
    assert Round(Register(0xb7f441c8)) == Register(0x5bfa20e4);
    assert Round(Register(0x5bfa20e4)) == Register(0x2dfd1072);
    hide Round;
    EightRounds(Register(0xffffffff), Register(0x92477cdf), Register(0xa49b3d4f), Register(0xbff51d87), Register(0xb2420de3),
                Register(0xb49985d1), Register(0xb7f441c8), Register(0x5bfa20e4), Register(0x2dfd1072));
  }

  lemma ResiduePart2()
    ensures Rounds(Register(0x2dfd1072), 8) == Register(0xbe26ed00)
  {
    assert Round(Register(0x2dfd1072)) == Register(0x16fe8839);
    assert Round(Register(0x16fe8839)) == Register(0xe6c7c73c);
    assert Round(Register(0xe6c7c73c)) == Register(0x7363e39e);
    assert Round(Register(0x7363e39e)) == Register(0x39b1f1cf);
    assert Round(Register(0x39b1f1cf)) == Register(0xf1607bc7);
    assert Round(Register(0xf1607bc7)) == Register(0x9508bec3);
    assert Round(Register(0x9508bec3)) == Register(0xa73cdc41);
    assert Round(Register(0xa73cdc41)) == Register(0xbe26ed00);
    hide Round;
    EightRounds(Register(0x2dfd1072), Register(0x16fe8839), Register(0xe6c7c73c), Register(0x7363e39e), Register(0x39b1f1cf),
                Register(0xf1607bc7), Register(0x9508bec3), Register(0xa73cdc41), Register(0xbe26ed00));
  }

  lemma ResiduePart3()
    ensures Rounds(Register(0xbe26ed00), 8) == Register(0x00be26ed)
  {
    assert Round(Register(0xbe26ed00)) == Register(0x5f137680);
    assert Round(Register(0x5f137680)) == Register(0x2f89bb40);
    assert Round(Register(0x2f89bb40)) == Register(0x17c4dda0);
    assert Round(Register(0x17c4dda0)) == Register(0x0be26ed0);
    assert Round(Register(0x0be26ed0)) == Register(0x05f13768);
    assert Round(Register(0x05f13768)) == Register(0x02f89bb4);
    assert Round(Register(0x02f89bb4)) == Register(0x017c4dda);
    assert Round(Register(0x017c4dda)) == Register(0x00be26ed);
    hide Round;
    EightRounds(Register(0xbe26ed00), Register(0x5f137680), Register(0x2f89bb40), Register(0x17c4dda0), Register(0x0be26ed0),
                Register(0x05f13768), Register(0x02f89bb4), Register(0x017c4dda), Register(0x00be26ed));
  }

  lemma ResiduePart4()
    ensures Rounds(Register(0x00be26ed), 8) == Register(0xdebb20e3)
  {
    assert Round(Register(0x00be26ed)) == Register(0xede79056);
    assert Round(Register(0xede79056)) == Register(0x76f3c82b);
    assert Round(Register(0x76f3c82b)) == Register(0xd6c16735);
    assert Round(Register(0xd6c16735)) == Register(0x86d830ba);
    assert Round(Register(0x86d830ba)) == Register(0x436c185d);
    assert Round(Register(0x436c185d)) == Register(0xcc0e8f0e);
    assert Round(Register(0xcc0e8f0e)) == Register(0x66074787);
    assert Round(Register(0x66074787)) == Register(0xdebb20e3);
    hide Round;
    EightRounds(Register(0x00be26ed), Register(0xede79056), Register(0x76f3c82b), Register(0xd6c16735), Register(0x86d830ba),
                Register(0x436c185d), Register(0xcc0e8f0e), Register(0x66074787), Register(0xdebb20e3));
  }

  lemma ResidueIs()
    ensures Rounds(ALL_ONES, 32) == Register(0xDEBB_20E3)
  {
    hide Rounds;
    ResiduePart1();
    ResiduePart2();
    ResiduePart3();
    ResiduePart4();
    RoundsOfSum(ALL_ONES, 8, 8);
    RoundsOfSum(ALL_ONES, 16, 8);
    RoundsOfSum(ALL_ONES, 24, 8);
  }

  /** Four trailer bytes are the checksum of `data` exactly when data and trailer leave the register at the
      residue of the standard. */
  lemma {:induction false} ResidueOfChecked(data: seq<Byte>, trailer: seq<Byte>)
    requires |trailer| == 4
    ensures Word(trailer) == Crc32(data) <==> State(ALL_ONES, data + trailer) == Register(0xDEBB_20E3)
  {
    hide Word, Crc32, State, Rounds;
    ChecksumHoldsIffResidue(data, trailer);
    ResidueIs();
  }

  lemma CheckPart1()
    ensures Absorb(Register(0xffffffff), 0x31) == Register(0x7c231048)
  {
    assert Xor(Register(0xffffffff), OfByte(0x31)) == Register(0xffffffce);
    assert Round(Register(0xffffffce)) == Register(0x7fffffe7);
    assert Round(Register(0x7fffffe7)) == Register(0xd2477cd3);
    assert Round(Register(0xd2477cd3)) == Register(0x849b3d49);
    assert Round(Register(0x849b3d49)) == Register(0xaff51d84);
    assert Round(Register(0xaff51d84)) == Register(0x57fa8ec2);
    assert Round(Register(0x57fa8ec2)) == Register(0x2bfd4761);
    assert Round(Register(0x2bfd4761)) == Register(0xf8462090);
    assert Round(Register(0xf8462090)) == Register(0x7c231048);
    hide Round, Xor;
    EightRounds(Register(0xffffffce), Register(0x7fffffe7), Register(0xd2477cd3), Register(0x849b3d49), Register(0xaff51d84),
                Register(0x57fa8ec2), Register(0x2bfd4761), Register(0xf8462090), Register(0x7c231048));
  }

  lemma CheckPart2()
    ensures Absorb(Register(0x7c231048), 0x32) == Register(0xb0acbb32)
  {
    assert Xor(Register(0x7c231048), OfByte(0x32)) == Register(0x7c23107a);
    assert Round(Register(0x7c23107a)) == Register(0x3e11883d);
    assert Round(Register(0x3e11883d)) == Register(0xf2b0473e);
    assert Round(Register(0xf2b0473e)) == Register(0x7958239f);
    assert Round(Register(0x7958239f)) == Register(0xd11492ef);
    assert Round(Register(0xd11492ef)) == Register(0x8532ca57);
    assert Round(Register(0x8532ca57)) == Register(0xaf21e60b);
    assert Round(Register(0xaf21e60b)) == Register(0xba287025);
    assert Round(Register(0xba287025)) == Register(0xb0acbb32);
    hide Round, Xor;
    EightRounds(Register(0x7c23107a), Register(0x3e11883d), Register(0xf2b0473e), Register(0x7958239f), Register(0xd11492ef),
                Register(0x8532ca57), Register(0xaf21e60b), Register(0xba287025), Register(0xb0acbb32));
  }

  lemma CheckPart3()
    ensures Absorb(Register(0xb0acbb32), 0x33) == Register(0x77b79c2d)
  {
    assert Xor(Register(0xb0acbb32), OfByte(0x33)) == Register(0xb0acbb01);
    assert Round(Register(0xb0acbb01)) == Register(0xb5eedea0);
    assert Round(Register(0xb5eedea0)) == Register(0x5af76f50);
    assert Round(Register(0x5af76f50)) == Register(0x2d7bb7a8);
    assert Round(Register(0x2d7bb7a8)) == Register(0x16bddbd4);
    assert Round(Register(0x16bddbd4)) == Register(0x0b5eedea);
    assert Round(Register(0x0b5eedea)) == Register(0x05af76f5);
    assert Round(Register(0x05af76f5)) == Register(0xef6f385a);
    assert Round(Register(0xef6f385a)) == Register(0x77b79c2d);
    hide Round, Xor;
    EightRounds(Register(0xb0acbb01), Register(0xb5eedea0), Register(0x5af76f50), Register(0x2d7bb7a8), Register(0x16bddbd4),
                Register(0x0b5eedea), Register(0x05af76f5), Register(0xef6f385a), Register(0x77b79c2d));
  }

  lemma CheckPart4()
    ensures Absorb(Register(0x77b79c2d), 0x34) == Register(0x641c1f5c)
  {
    assert Xor(Register(0x77b79c2d), OfByte(0x34)) == Register(0x77b79c19);
    assert Round(Register(0x77b79c19)) == Register(0xd6634d2c);
    assert Round(Register(0xd6634d2c)) == Register(0x6b31a696);
    assert Round(Register(0x6b31a696)) == Register(0x3598d34b);
    assert Round(Register(0x3598d34b)) == Register(0xf774ea85);
    assert Round(Register(0xf774ea85)) == Register(0x9602f662);
    assert Round(Register(0x9602f662)) == Register(0x4b017b31);
    assert Round(Register(0x4b017b31)) == Register(0xc8383eb8);
    assert Round(Register(0xc8383eb8)) == Register(0x641c1f5c);
    hide Round, Xor;
    EightRounds(Register(0x77b79c19), Register(0xd6634d2c), Register(0x6b31a696), Register(0x3598d34b), Register(0xf774ea85),
                Register(0x9602f662), Register(0x4b017b31), Register(0xc8383eb8), Register(0x641c1f5c));
  }

  lemma CheckPart5()
    ensures Absorb(Register(0x641c1f5c), 0x35) == Register(0x340ac5e3)
  {
    assert Xor(Register(0x641c1f5c), OfByte(0x35)) == Register(0x641c1f69);
    assert Round(Register(0x641c1f69)) == Register(0xdfb68c94);
    assert Round(Register(0xdfb68c94)) == Register(0x6fdb464a);
    assert Round(Register(0x6fdb464a)) == Register(0x37eda325);
    assert Round(Register(0x37eda325)) == Register(0xf64e52b2);
    assert Round(Register(0xf64e52b2)) == Register(0x7b272959);
    assert Round(Register(0x7b272959)) == Register(0xd02b178c);
    assert Round(Register(0xd02b178c)) == Register(0x68158bc6);
    assert Round(Register(0x68158bc6)) == Register(0x340ac5e3);
    hide Round, Xor;
    EightRounds(Register(0x641c1f69), Register(0xdfb68c94), Register(0x6fdb464a), Register(0x37eda325), Register(0xf64e52b2),
                Register(0x7b272959), Register(0xd02b178c), Register(0x68158bc6), Register(0x340ac5e3));
  }

  lemma CheckPart6()
    ensures Absorb(Register(0x340ac5e3), 0x36) == Register(0xf68d2c9e)
  {
    assert Xor(Register(0x340ac5e3), OfByte(0x36)) == Register(0x340ac5d5);
    assert Round(Register(0x340ac5d5)) == Register(0xf7bde1ca);
    assert Round(Register(0xf7bde1ca)) == Register(0x7bdef0e5);
    assert Round(Register(0x7bdef0e5)) == Register(0xd057fb52);
    assert Round(Register(0xd057fb52)) == Register(0x682bfda9);
    assert Round(Register(0x682bfda9)) == Register(0xd9ad7df4);
    assert Round(Register(0xd9ad7df4)) == Register(0x6cd6befa);
    assert Round(Register(0x6cd6befa)) == Register(0x366b5f7d);
    assert Round(Register(0x366b5f7d)) == Register(0xf68d2c9e);
    hide Round, Xor;
    EightRounds(Register(0x340ac5d5), Register(0xf7bde1ca), Register(0x7bdef0e5), Register(0xd057fb52), Register(0x682bfda9),
                Register(0xd9ad7df4), Register(0x6cd6befa), Register(0x366b5f7d), Register(0xf68d2c9e));
  }

  lemma CheckPart7()
    ensures Absorb(Register(0xf68d2c9e), 0x37) == Register(0xaffc9660)
  {
    assert Xor(Register(0xf68d2c9e), OfByte(0x37)) == Register(0xf68d2ca9);
    assert Round(Register(0xf68d2ca9)) == Register(0x96fe1574);
    assert Round(Register(0x96fe1574)) == Register(0x4b7f0aba);
    assert Round(Register(0x4b7f0aba)) == Register(0x25bf855d);
    assert Round(Register(0x25bf855d)) == Register(0xff67418e);
    assert Round(Register(0xff67418e)) == Register(0x7fb3a0c7);
    assert Round(Register(0x7fb3a0c7)) == Register(0xd2615343);
    assert Round(Register(0xd2615343)) == Register(0x84882a81);
    assert Round(Register(0x84882a81)) == Register(0xaffc9660);
    hide Round, Xor;
    EightRounds(Register(0xf68d2ca9), Register(0x96fe1574), Register(0x4b7f0aba), Register(0x25bf855d), Register(0xff67418e),
                Register(0x7fb3a0c7), Register(0xd2615343), Register(0x84882a81), Register(0xaffc9660));
  }

  lemma CheckPart8()
    ensures Absorb(Register(0xaffc9660), 0x38) == Register(0x651f2550)
  {
    assert Xor(Register(0xaffc9660), OfByte(0x38)) == Register(0xaffc9658);
    assert Round(Register(0xaffc9658)) == Register(0x57fe4b2c);
    assert Round(Register(0x57fe4b2c)) == Register(0x2bff2596);
    assert Round(Register(0x2bff2596)) == Register(0x15ff92cb);
    assert Round(Register(0x15ff92cb)) == Register(0xe7474a45);
    assert Round(Register(0xe7474a45)) == Register(0x9e1b2602);
    assert Round(Register(0x9e1b2602)) == Register(0x4f0d9301);
    assert Round(Register(0x4f0d9301)) == Register(0xca3e4aa0);
    assert Round(Register(0xca3e4aa0)) == Register(0x651f2550);
    hide Round, Xor;
    EightRounds(Register(0xaffc9658), Register(0x57fe4b2c), Register(0x2bff2596), Register(0x15ff92cb), Register(0xe7474a45),
                Register(0x9e1b2602), Register(0x4f0d9301), Register(0xca3e4aa0), Register(0x651f2550));
  }

  lemma CheckPart9()
    ensures Absorb(Register(0x651f2550), 0x39) == Register(0x340bc6d9)
  {
    assert Xor(Register(0x651f2550), OfByte(0x39)) == Register(0x651f2569);
    assert Round(Register(0x651f2569)) == Register(0xdf371194);
    assert Round(Register(0xdf371194)) == Register(0x6f9b88ca);
    assert Round(Register(0x6f9b88ca)) == Register(0x37cdc465);
    assert Round(Register(0x37cdc465)) == Register(0xf65e6112);
    assert Round(Register(0xf65e6112)) == Register(0x7b2f3089);
    assert Round(Register(0x7b2f3089)) == Register(0xd02f1b64);
    assert Round(Register(0xd02f1b64)) == Register(0x68178db2);
    assert Round(Register(0x68178db2)) == Register(0x340bc6d9);
    hide Round, Xor;
    EightRounds(Register(0x651f2569), Register(0xdf371194), Register(0x6f9b88ca), Register(0x37cdc465), Register(0xf65e6112),
                Register(0x7b2f3089), Register(0xd02f1b64), Register(0x68178db2), Register(0x340bc6d9));
  }

  /** The check value of the standard: the checksum of the digits from 1 to 9. */
  lemma CheckValue()
    ensures Crc32([0x31, 0x32, 0x33, 0x34, 0x35, 0x36, 0x37, 0x38, 0x39]) == Register(0xCBF4_3926)
  {
    hide Absorb;
    CheckPart1();
    CheckPart2();
    CheckPart3();
    CheckPart4();
    CheckPart5();
    CheckPart6();
    CheckPart7();
    CheckPart8();
    CheckPart9();
    assert State(Register(0x651f2550), [0x39]) == Register(0x340bc6d9);
    assert State(Register(0xaffc9660), [0x38, 0x39]) == Register(0x340bc6d9) by {
      assert [0x38, 0x39][1..] == [0x39];
    }
    assert State(Register(0xf68d2c9e), [0x37, 0x38, 0x39]) == Register(0x340bc6d9) by {
      assert [0x37, 0x38, 0x39][1..] == [0x38, 0x39];
    }
    assert State(Register(0x340ac5e3), [0x36, 0x37, 0x38, 0x39]) == Register(0x340bc6d9) by {
      assert [0x36, 0x37, 0x38, 0x39][1..] == [0x37, 0x38, 0x39];
    }
    assert State(Register(0x641c1f5c), [0x35, 0x36, 0x37, 0x38, 0x39]) == Register(0x340bc6d9) by {
      assert [0x35, 0x36, 0x37, 0x38, 0x39][1..] == [0x36, 0x37, 0x38, 0x39];
    }
    assert State(Register(0x77b79c2d), [0x34, 0x35, 0x36, 0x37, 0x38, 0x39]) == Register(0x340bc6d9) by {
      assert [0x34, 0x35, 0x36, 0x37, 0x38, 0x39][1..] == [0x35, 0x36, 0x37, 0x38, 0x39];
    }
    assert State(Register(0xb0acbb32), [0x33, 0x34, 0x35, 0x36, 0x37, 0x38, 0x39]) == Register(0x340bc6d9) by {
      assert [0x33, 0x34, 0x35, 0x36, 0x37, 0x38, 0x39][1..] == [0x34, 0x35, 0x36, 0x37, 0x38, 0x39];
    }
    assert State(Register(0x7c231048), [0x32, 0x33, 0x34, 0x35, 0x36, 0x37, 0x38, 0x39]) == Register(0x340bc6d9) by {
      assert [0x32, 0x33, 0x34, 0x35, 0x36, 0x37, 0x38, 0x39][1..] == [0x33, 0x34, 0x35, 0x36, 0x37, 0x38, 0x39];
    }
    assert State(Register(0xffffffff), [0x31, 0x32, 0x33, 0x34, 0x35, 0x36, 0x37, 0x38, 0x39]) == Register(0x340bc6d9) by {
      assert [0x31, 0x32, 0x33, 0x34, 0x35, 0x36, 0x37, 0x38, 0x39][1..] == [0x32, 0x33, 0x34, 0x35, 0x36, 0x37, 0x38, 0x39];
    }
    assert Complement(Register(0x340bc6d9)) == Register(0xCBF4_3926);
  }
}
