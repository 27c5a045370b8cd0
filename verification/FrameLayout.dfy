/** The bytes of a frame, by position and value, and that a receiver accepts exactly the encoded frames. */
module FrameLayout {
  import opened Core
  import opened Crc
  import opened Framing

  // ---------------------------------------------------------------------------------------------
  // Fields
  // ---------------------------------------------------------------------------------------------

  /** The value of a byte with one bit, and of all bits. */
  lemma ByteValues()
    ensures ByteValue(0x01) == 1 && ByteValue(0x02) == 2 && ByteValue(0x04) == 4 && ByteValue(0x08) == 8
    ensures ByteValue(0x10) == 16 && ByteValue(0x20) == 32 && ByteValue(0x40) == 64 && ByteValue(0x80) == 128
    ensures ByteValue(0x00) == 0 && ByteValue(0xFF) == 255
  {
  }

  lemma LowBit(b: bool, n: nat, r: nat)
    requires n == Weight(b, 1) + 2 * r
    ensures (n % 2 == 1 <==> b) && n / 2 == r
  {
  }

  lemma RebuildByte(b: Byte)
    ensures ByteOfBits(b & 1 != 0, b & 2 != 0, b & 4 != 0, b & 8 != 0, b & 16 != 0, b & 32 != 0, b & 64 != 0, b & 128 != 0) == b
  {
  }

  lemma LowByteFrom(n: nat, r1: nat, r2: nat, r3: nat, r4: nat, r5: nat, r6: nat, r7: nat)
    requires n / 2 == r1 && r1 / 2 == r2 && r2 / 2 == r3 && r3 / 2 == r4 && r4 / 2 == r5 && r5 / 2 == r6 && r6 / 2 == r7
    ensures LowByteOf(n) == ByteOfBits(n % 2 == 1, r1 % 2 == 1, r2 % 2 == 1, r3 % 2 == 1, r4 % 2 == 1, r5 % 2 == 1, r6 % 2 == 1, r7 % 2 == 1)
  {
    hide ByteOfBits;
  }

  lemma SumOfBits(b0: bool, b1: bool, b2: bool, b3: bool, b4: bool, b5: bool, b6: bool, b7: bool, x: nat)
    ensures Weight(b0, 1) + Weight(b1, 2) + Weight(b2, 4) + Weight(b3, 8) + Weight(b4, 16) + Weight(b5, 32) + Weight(b6, 64) + Weight(b7, 128) + 256 * x
            == Weight(b0, 1) + 2 * (Weight(b1, 1) + 2 * (Weight(b2, 1) + 2 * (Weight(b3, 1) + 2 * (Weight(b4, 1)
               + 2 * (Weight(b5, 1) + 2 * (Weight(b6, 1) + 2 * (Weight(b7, 1) + 2 * x)))))))
  {
  }

  lemma LowByteOfBits(b0: bool, b1: bool, b2: bool, b3: bool, b4: bool, b5: bool, b6: bool, b7: bool, x: nat)
    ensures LowByteOf(Weight(b0, 1) + Weight(b1, 2) + Weight(b2, 4) + Weight(b3, 8) + Weight(b4, 16) + Weight(b5, 32)
                      + Weight(b6, 64) + Weight(b7, 128) + 256 * x)
            == ByteOfBits(b0, b1, b2, b3, b4, b5, b6, b7)
  {
    SumOfBits(b0, b1, b2, b3, b4, b5, b6, b7, x);
    hide LowByteOf, ByteOfBits, Weight;
    var r7 := Weight(b7, 1) + 2 * x;
    var r6 := Weight(b6, 1) + 2 * r7;
    var r5 := Weight(b5, 1) + 2 * r6;
    var r4 := Weight(b4, 1) + 2 * r5;
    var r3 := Weight(b3, 1) + 2 * r4;
    var r2 := Weight(b2, 1) + 2 * r3;
    var r1 := Weight(b1, 1) + 2 * r2;
    var n := Weight(b0, 1) + 2 * r1;
    LowBit(b0, n, r1);
    LowBit(b1, r1, r2);
    LowBit(b2, r2, r3);
    LowBit(b3, r3, r4);
    LowBit(b4, r4, r5);
    LowBit(b5, r5, r6);
    LowBit(b6, r6, r7);
    LowBit(b7, r7, x);
    LowByteFrom(n, r1, r2, r3, r4, r5, r6, r7);
  }

  lemma LowByteOfValue(b: Byte, x: nat)
    ensures LowByteOf(ByteValue(b) + 256 * x) == b && (ByteValue(b) + 256 * x) / 256 == x
  {
    LowByteOfBits(b & 1 != 0, b & 2 != 0, b & 4 != 0, b & 8 != 0, b & 16 != 0, b & 32 != 0, b & 64 != 0, b & 128 != 0, x);
    RebuildByte(b);
    hide LowByteOf, ByteOfBits;
    assert ByteValue(b) < 256;
  }

  /** Every field is the encoding of its value. */
  lemma {:induction false} FieldIsEncoded(s: seq<Byte>)
    ensures LittleEndian(FromLittleEndian(s), |s|) == s
    decreases |s|
  {
    if s != [] {
      hide LowByteOf, ByteValue, LittleEndian, FromLittleEndian;
      FieldIsEncoded(s[1..]);
      var x := FromLittleEndian(s[1..]);
      FieldValue(s);
      LowByteOfValue(s[0], x);
      EncodeHead(FromLittleEndian(s), s[0], x, |s| - 1);
      assert s == [s[0]] + s[1..];
    } else {
      assert LittleEndian(0, 0) == [];
    }
  }

  lemma FieldValue(s: seq<Byte>)
    requires s != []
    ensures FromLittleEndian(s) == ByteValue(s[0]) + 256 * FromLittleEndian(s[1..])
  {
    hide ByteValue;
  }

  lemma EncodeHead(n: nat, b: Byte, x: nat, k: nat)
    requires LowByteOf(n) == b && n / 256 == x
    ensures LittleEndian(n, k + 1) == [b] + LittleEndian(x, k)
  {
    hide LowByteOf;
  }

  // ---------------------------------------------------------------------------------------------
  // Frames
  // ---------------------------------------------------------------------------------------------

  /** A frame byte for byte: the letters of the magic number from the last to the first, the length of header
      and payload, type, sequence number, deadline, payload, and the checksum of all of that. */
  lemma {:induction false} WireLayout(m: Message)
    requires 28 + |m.payload| <= 0x400_0000
    ensures var w, n := Wire(m), 28 + |m.payload|;
            && |w| == n + 4
            && w[..4] == [0x52, 0x43, 0x4F, 0x53]
            && FromLittleEndian(w[4..8]) == n
            && FromLittleEndian(w[8..12]) == m.kind
            && FromLittleEndian(w[12..20]) == m.sequence
            && FromLittleEndian(w[20..28]) == m.deadline
            && w[28..n] == m.payload
            && Word(w[n..]) == Crc32(w[..n])
  {
    var f, w := FrameBytes(m), Wire(m);
    assert Sendable(m);
    hide LittleEndian, FromLittleEndian, Header, RegisterBytes, Crc32, Word, Fits, FrameBytes, Decode;
    FrameStart(m);
    MagicBytes();
    HeaderFields(m);
    PrefixSlices(f, w);
    DecodedFields(f);
    ChecksumFollows(f);
  }

  lemma PrefixSlices(f: seq<Byte>, w: seq<Byte>)
    requires f <= w && |f| >= 28
    ensures w[..4] == f[..4] && w[4..8] == f[4..8] && w[8..12] == f[8..12] && w[12..20] == f[12..20] && w[20..28] == f[20..28]
    ensures w[28..|f|] == f[28..] && w[..|f|] == f
  {
    assert w[..|f|] == f;
  }

  lemma DecodedFields(f: seq<Byte>)
    requires |f| >= HEADER_SIZE
    ensures var m := Decode(f);
            && FromLittleEndian(f[8..12]) == m.kind && FromLittleEndian(f[12..20]) == m.sequence
            && FromLittleEndian(f[20..28]) == m.deadline && f[28..] == m.payload
  {
    hide FromLittleEndian;
  }

  lemma ChecksumFollows(f: seq<Byte>)
    ensures var w := f + RegisterBytes(Crc32(f), 4);
            Word(w[|f|..]) == Crc32(f)
  {
    EveryRegisterFits(Crc32(f));
    ChecksumRoundTrip(Crc32(f), 4);
    hide RegisterBytes, Crc32, Word, Fits;
    assert (f + RegisterBytes(Crc32(f), 4))[|f|..] == RegisterBytes(Crc32(f), 4);
  }

  lemma MagicBytes()
    ensures LittleEndian(0x534F_4352, 4) == [0x52, 0x43, 0x4F, 0x53]
  {
    assert 0x534F_4352 / 256 == 0x534F43 && 0x534F43 / 256 == 0x534F && 0x534F / 256 == 0x53;
    MagicByte(0x534F_4352, 0x52, 0x534F43);
    MagicByte(0x534F43, 0x43, 0x534F);
    MagicByte(0x534F, 0x4F, 0x53);
    MagicByte(0x53, 0x53, 0);
    hide LowByteOf;
    assert LittleEndian(0x53, 1) == [0x53] + LittleEndian(0, 0);
    assert LittleEndian(0x534F, 2) == [0x4F] + LittleEndian(0x53, 1);
    assert LittleEndian(0x534F43, 3) == [0x43] + LittleEndian(0x534F, 2);
    assert LittleEndian(0x534F_4352, 4) == [0x52] + LittleEndian(0x534F43, 3);
  }

  lemma MagicByte(n: nat, b: Byte, x: nat)
    requires n == ByteValue(b) + 256 * x
    ensures LowByteOf(n) == b
  {
    LowByteOfValue(b, x);
  }

  predicate Encodes(m: Message, s: seq<Byte>) {
    28 + |m.payload| <= 0x400_0000 && Wire(m) <= s
  }

  /** A receiver accepts a stream exactly when it starts with the encoding of some message of at most 64 MiB. */
  lemma {:induction false} AcceptedIffEncoded(s: seq<Byte>)
    ensures Receive(s).ok <==> exists m :: Encodes(m, s)
  {
    hide Receive, Encodes;
    if m :| Encodes(m, s) {
      EncodedIsAccepted(m, s);
    }
    if Receive(s).ok {
      var m := AcceptedIsEncoded(s);
    }
  }

  lemma {:induction false} AcceptedIsEncoded(s: seq<Byte>) returns (m: Message)
    requires Receive(s).ok
    ensures Encodes(m, s)
  {
    hide Receive, Encodes, FromLittleEndian, Crc32, Word, Decode;
    ReceivedFacts(s);
    var f := Receive(s).frame;
    FrameIsEncoded(s, f);
    m := Decode(f);
  }

  lemma EncodedIsAccepted(m: Message, s: seq<Byte>)
    requires Encodes(m, s)
    ensures Receive(s).ok
  {
    hide Receive, Wire;
    assert s == Wire(m) + s[|Wire(m)|..];
    ReceiveWire(m, s[|Wire(m)|..]);
  }

  lemma {:induction false} FrameIsEncoded(s: seq<Byte>, f: seq<Byte>)
    requires HEADER_SIZE <= |f| <= MAX_FRAME_SIZE && |f| + 4 <= |s| && f == s[..|f|]
    requires FromLittleEndian(f[..4]) == MAGIC && FromLittleEndian(f[4..8]) == |f|
    requires Word(s[|f|..|f| + 4]) == Crc32(f)
    ensures Encodes(Decode(f), s)
  {
    hide FromLittleEndian, Crc32, Word, RegisterBytes, Decode, FrameBytes;
    var trailer := s[|f|..|f| + 4];
    DecodedIsFrame(f);
    TrailerIsChecksum(trailer, Crc32(f));
    assert s[..|f| + 4] == f + trailer;
  }

  lemma ReceivedFacts(s: seq<Byte>)
    requires Receive(s).ok
    ensures var f := Receive(s).frame;
            && HEADER_SIZE <= |f| <= MAX_FRAME_SIZE && |f| + 4 <= |s| && f == s[..|f|]
            && FromLittleEndian(f[..4]) == MAGIC && FromLittleEndian(f[4..8]) == |f|
            && Word(s[|f|..|f| + 4]) == Crc32(f)
  {
    hide FromLittleEndian, Word, Crc32;
    var length := FromLittleEndian(s[4..8]);
    assert s[..length][..4] == s[..4] && s[..length][4..8] == s[4..8];
  }

  lemma {:induction false} DecodedIsFrame(f: seq<Byte>)
    requires |f| >= HEADER_SIZE
    requires FromLittleEndian(f[..4]) == MAGIC && FromLittleEndian(f[4..8]) == |f|
    ensures FrameBytes(Decode(f)) == f
  {
    var m := Decode(f);
    DecodedFields(f);
    hide LittleEndian, FromLittleEndian, Decode;
    FieldIsEncoded(f[..4]);
    FieldIsEncoded(f[4..8]);
    FieldIsEncoded(f[8..12]);
    FieldIsEncoded(f[12..20]);
    FieldIsEncoded(f[20..28]);
    assert |f| == HEADER_SIZE + |m.payload|;
    assert FrameBytes(m) == f[..4] + f[4..8] + f[8..12] + f[12..20] + f[20..28] + f[28..];
    hide FrameBytes;
    SixParts(f);
  }

  lemma SixParts(f: seq<Byte>)
    requires |f| >= 28
    ensures f[..4] + f[4..8] + f[8..12] + f[12..20] + f[20..28] + f[28..] == f
  {
  }

  lemma TrailerIsChecksum(trailer: seq<Byte>, x: Register)
    requires |trailer| == 4 && Word(trailer) == x
    ensures trailer == RegisterBytes(x, 4)
  {
    hide Word, RegisterBytes;
    EveryRegisterFits(x);
    ChecksumRoundTrip(x, 4);
    if trailer != RegisterBytes(x, 4) {
      WordInjective(trailer, RegisterBytes(x, 4));
    }
  }

  /** What a refused call leaves to read: nothing if the stream ended, else what follows the header if that is bad,
      and what follows the trailer if the checksum is wrong. */
  lemma RefusalLeaves(s: seq<Byte>)
    requires !Receive(s).ok
    ensures Receive(s).rest == [] || (|s| >= 28 && Receive(s).rest == s[28..])
            || (|s| >= 28 && FromLittleEndian(s[4..8]) + 4 <= |s| && Receive(s).rest == s[FromLittleEndian(s[4..8]) + 4..])
    ensures |s| >= 28 && s[..4] != [0x52, 0x43, 0x4F, 0x53] ==> Receive(s).rest == s[28..]
  {
    if |s| >= 28 && s[..4] != [0x52, 0x43, 0x4F, 0x53] {
      MagicBytes();
      FieldIsEncoded(s[..4]);
    }
    hide FromLittleEndian, LittleEndian, Word, Crc32;
  }

  /** A request travels as type 0. */
  lemma RequestsHaveTypeZero(r: Request, deadline: U64)
    requires 28 + 4 + |r.name| + |r.payload| <= 0x400_0000
    ensures FromLittleEndian(RequestWire(r, deadline)[8..12]) == 0
  {
    hide LittleEndian, FromLittleEndian, Wire, Envelope;
    WireLayout(Message(UNARY_REQUEST, r.sequence, deadline, Envelope(r.name, r.payload)));
  }

  /** No other type is handed on as a request. */
  lemma OtherTypesAreIgnored(frame: seq<Byte>)
    requires |frame| >= HEADER_SIZE && FromLittleEndian(frame[8..12]) != 0
    ensures Dispatch(frame) == []
  {
    hide FromLittleEndian;
  }
}
