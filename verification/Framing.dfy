/** The wire frame: encoding, reassembly from partial reads, and the method envelope.

    A frame is a 28-byte header (magic, length, type, sequence, deadline), the payload and a four-byte
    checksum of everything before it.  `Receive` is the meaning of one receive call on a byte stream;
    the class `Connection` reassembles a frame from reads of arbitrary size and is proved to compute
    `Receive`, so how the stream is cut never matters. */
module Framing {
  import opened Core
  import opened Crc
  import opened Sequences

  const MAGIC: nat := 0x534F4352
  const HEADER_SIZE: nat := 28
  const MAX_FRAME_SIZE: nat := 64 * 1024 * 1024
  const UNARY_REQUEST: nat := 0

  datatype Message = Message(kind: U32, sequence: U64, deadline: U64, payload: seq<Byte>)

  // ---------------------------------------------------------------------------------------------
  // Buffers
  // ---------------------------------------------------------------------------------------------

  /** `base` with the bytes of `s` written over it from position `at`. */
  function Splice(base: seq<Byte>, at: nat, s: seq<Byte>): seq<Byte>
    requires at + |s| <= |base|
  {
    base[..at] + s + base[at + |s|..]
  }

  lemma SpliceNothing(base: seq<Byte>, at: nat)
    requires at <= |base|
    ensures Splice(base, at, []) == base
  {
  }

  lemma SpliceTwice(base: seq<Byte>, at: nat, s: seq<Byte>, t: seq<Byte>)
    requires at + |s| + |t| <= |base|
    ensures Splice(Splice(base, at, s), at + |s|, t) == Splice(base, at, s + t)
  {
    var once := Splice(base, at, s);
    assert once[..at + |s|] == base[..at] + s;
    assert once[at + |s| + |t|..] == base[at + |s| + |t|..];
  }

  lemma SpliceToEnd(base: seq<Byte>, at: nat, s: seq<Byte>)
    requires at + |s| == |base|
    ensures Splice(base, at, s) == base[..at] + s
  {
  }

  method PutByte(dst: array<Byte>, at: nat, b: Byte)
    requires at < dst.Length
    modifies dst
    ensures dst[..] == Splice(old(dst[..]), at, [b])
  {
    dst[at] := b;
  }

  /** Copies `s` into the buffer, byte by byte. */
  method CopyInto(dst: array<Byte>, at: nat, s: seq<Byte>)
    requires at + |s| <= dst.Length
    modifies dst
    ensures dst[..] == Splice(old(dst[..]), at, s)
  {
    hide Splice;
    SpliceNothing(dst[..], at);
    assert s[..0] == [];
    for i := 0 to |s|
      invariant dst[..] == Splice(old(dst[..]), at, s[..i])
    {
      PutByte(dst, at + i, s[i]);
      SpliceTwice(old(dst[..]), at, s[..i], [s[i]]);
      assert s[..i + 1] == s[..i] + [s[i]];
    }
    assert s[..|s|] == s;
  }

  // ---------------------------------------------------------------------------------------------
  // Little-endian fields
  // ---------------------------------------------------------------------------------------------

  /** Value of a bit at the given weight. */
  function Weight(bit: bool, w: nat): nat {
    if bit then w else 0
  }

  /** The byte with the given bits, least significant first. */
  function ByteOfBits(b0: bool, b1: bool, b2: bool, b3: bool, b4: bool, b5: bool, b6: bool, b7: bool): Byte {
    (if b0 then 1 else 0) | (if b1 then 2 else 0) | (if b2 then 4 else 0) | (if b3 then 8 else 0)
    | (if b4 then 16 else 0) | (if b5 then 32 else 0) | (if b6 then 64 else 0) | (if b7 then 128 else 0)
  }

  function ByteValue(b: Byte): nat {
    Weight(b & 1 != 0, 1) + Weight(b & 2 != 0, 2) + Weight(b & 4 != 0, 4) + Weight(b & 8 != 0, 8)
    + Weight(b & 16 != 0, 16) + Weight(b & 32 != 0, 32) + Weight(b & 64 != 0, 64) + Weight(b & 128 != 0, 128)
  }

  /** The low eight bits of `n`. */
  function LowByteOf(n: nat): Byte {
    var n1 := n / 2;
    var n2 := n1 / 2;
    var n3 := n2 / 2;
    var n4 := n3 / 2;
    var n5 := n4 / 2;
    var n6 := n5 / 2;
    var n7 := n6 / 2;
    ByteOfBits(n % 2 == 1, n1 % 2 == 1, n2 % 2 == 1, n3 % 2 == 1, n4 % 2 == 1, n5 % 2 == 1, n6 % 2 == 1, n7 % 2 == 1)
  }

  lemma BitsOfByte(b0: bool, b1: bool, b2: bool, b3: bool, b4: bool, b5: bool, b6: bool, b7: bool)
    ensures ByteValue(ByteOfBits(b0, b1, b2, b3, b4, b5, b6, b7))
            == Weight(b0, 1) + Weight(b1, 2) + Weight(b2, 4) + Weight(b3, 8)
               + Weight(b4, 16) + Weight(b5, 32) + Weight(b6, 64) + Weight(b7, 128)
  {
  }

  /** The low `k` bytes of `n`, least significant first; a wider `n` is truncated. */
  function LittleEndian(n: nat, k: nat): (s: seq<Byte>)
    ensures |s| == k
    decreases k
  {
    if k == 0 then [] else [LowByteOf(n)] + LittleEndian(n / 256, k - 1)
  }

  function FromLittleEndian(s: seq<Byte>): nat
    decreases |s|
  {
    if s == [] then 0 else ByteValue(s[0]) + 256 * FromLittleEndian(s[1..])
  }

  function Capacity(k: nat): nat
    decreases k
  {
    if k == 0 then 1 else 256 * Capacity(k - 1)
  }

  lemma ByteRoundTrip(n: nat)
    ensures ByteValue(LowByteOf(n)) == n % 256
  {
    var n1 := n / 2;
    var n2 := n1 / 2;
    var n3 := n2 / 2;
    var n4 := n3 / 2;
    var n5 := n4 / 2;
    var n6 := n5 / 2;
    var n7 := n6 / 2;
    BitsOfByte(n % 2 == 1, n1 % 2 == 1, n2 % 2 == 1, n3 % 2 == 1, n4 % 2 == 1, n5 % 2 == 1, n6 % 2 == 1, n7 % 2 == 1);
    hide ByteOfBits, ByteValue;
    Expansion(n, n1, n2, n3, n4, n5, n6, n7, n7 / 2);
  }

  lemma Expansion(n: nat, n1: nat, n2: nat, n3: nat, n4: nat, n5: nat, n6: nat, n7: nat, n8: nat)
    requires n1 == n / 2 && n2 == n1 / 2 && n3 == n2 / 2 && n4 == n3 / 2
    requires n5 == n4 / 2 && n6 == n5 / 2 && n7 == n6 / 2 && n8 == n7 / 2
    ensures n % 256 == Weight(n % 2 == 1, 1) + Weight(n1 % 2 == 1, 2) + Weight(n2 % 2 == 1, 4) + Weight(n3 % 2 == 1, 8)
                       + Weight(n4 % 2 == 1, 16) + Weight(n5 % 2 == 1, 32) + Weight(n6 % 2 == 1, 64) + Weight(n7 % 2 == 1, 128)
  {
    hide Weight;
    HalfExpansion(n, n1, n2, n3, n4, 1);
    HalfExpansion(n4, n5, n6, n7, n8, 16);
    Remainder(n, n8, Weight(n % 2 == 1, 1) + Weight(n1 % 2 == 1, 2) + Weight(n2 % 2 == 1, 4) + Weight(n3 % 2 == 1, 8)
                     + Weight(n4 % 2 == 1, 16) + Weight(n5 % 2 == 1, 32) + Weight(n6 % 2 == 1, 64) + Weight(n7 % 2 == 1, 128));
  }

  lemma Remainder(n: nat, q: nat, r: nat)
    requires n == 256 * q + r && r < 256
    ensures n % 256 == r
  {
  }

  lemma HalfExpansion(n: nat, n1: nat, n2: nat, n3: nat, n4: nat, w: nat)
    requires n1 == n / 2 && n2 == n1 / 2 && n3 == n2 / 2 && n4 == n3 / 2
    requires w == 1 || w == 16
    ensures w * n == 16 * w * n4 + Weight(n % 2 == 1, w) + Weight(n1 % 2 == 1, 2 * w)
                     + Weight(n2 % 2 == 1, 4 * w) + Weight(n3 % 2 == 1, 8 * w)
    ensures Weight(n % 2 == 1, w) + Weight(n1 % 2 == 1, 2 * w) + Weight(n2 % 2 == 1, 4 * w) + Weight(n3 % 2 == 1, 8 * w)
            <= 15 * w
  {
  }

  /** Reading back a written field returns its value, for every value that fits the field. */
  lemma {:induction false} FieldRoundTrip(n: nat, k: nat)
    requires n < Capacity(k)
    ensures FromLittleEndian(LittleEndian(n, k)) == n
    decreases k
  {
    if k != 0 {
      ByteRoundTrip(n);
      hide LowByteOf, ByteValue;
      FieldRoundTrip(n / 256, k - 1);
      assert LittleEndian(n, k)[1..] == LittleEndian(n / 256, k - 1);
    }
  }

  lemma Capacities()
    ensures Capacity(4) == 0x1_0000_0000
    ensures Capacity(8) == 0x1_0000_0000_0000_0000
  {
    assert Capacity(2) == 65536;
    assert Capacity(4) == 0x1_0000_0000;
    assert Capacity(6) == 0x1_0000_0000_0000;
  }

  method WriteLittleEndian(dst: array<Byte>, at: nat, n: nat, k: nat)
    requires at + k <= dst.Length
    modifies dst
    ensures dst[..] == Splice(old(dst[..]), at, LittleEndian(n, k))
  {
    hide LowByteOf, Splice;
    ghost var field := LittleEndian(n, k);
    var rest := n;
    SpliceNothing(dst[..], at);
    assert field[..0] == [];
    for i := 0 to k
      invariant dst[..] == Splice(old(dst[..]), at, field[..i])
      invariant field[i..] == LittleEndian(rest, k - i)
    {
      PutByte(dst, at + i, LowByteOf(rest));
      SpliceTwice(old(dst[..]), at, field[..i], [field[i]]);
      assert field[..i + 1] == field[..i] + [field[i]];
      assert field[i + 1..] == field[i..][1..];
      rest := rest / 256;
    }
    assert field[..k] == field;
  }

  // ---------------------------------------------------------------------------------------------
  // Checksum field
  // ---------------------------------------------------------------------------------------------

  function LowByte(x: Register): Byte {
    (x.bits & 0xFF) as Byte
  }

  function Down(x: Register): Register {
    Register(x.bits >> 8)
  }

  function RegisterBytes(x: Register, k: nat): (s: seq<Byte>)
    ensures |s| == k
    decreases k
  {
    if k == 0 then [] else [LowByte(x)] + RegisterBytes(Down(x), k - 1)
  }

  lemma SplitLowByte(x: Register)
    ensures Xor(OfByte(LowByte(x)), Lift(Down(x))) == x
  {
    LiftBits(Down(x));
    hide Lift;
    assert ((x.bits & 0xFF) as Byte) as bv32 == x.bits & 0xFF;
  }

  lemma FitsDown(x: Register, k: nat)
    requires 1 <= k <= 4
    requires Fits(x, k)
    ensures Fits(Down(x), k - 1)
  {
  }

  lemma {:induction false} ChecksumRoundTrip(x: Register, k: nat)
    requires k <= 4
    requires Fits(x, k)
    ensures Word(RegisterBytes(x, k)) == x
    decreases k
  {
    hide Fits, LowByte, Down, Xor, Lift, OfByte;
    if k == 0 {
      FitsNothing(x);
    } else {
      SplitLowByte(x);
      FitsDown(x, k);
      ChecksumRoundTrip(Down(x), k - 1);
      assert RegisterBytes(x, k)[1..] == RegisterBytes(Down(x), k - 1);
    }
  }

  lemma FitsNothing(x: Register)
    requires Fits(x, 0)
    ensures x == Register(0)
  {
    assert x.bits & 0xFFFF_FFFF == x.bits;
  }

  // ---------------------------------------------------------------------------------------------
  // Encoding
  // ---------------------------------------------------------------------------------------------

  function Header(m: Message): (s: seq<Byte>)
    ensures |s| == HEADER_SIZE
  {
    LittleEndian(MAGIC, 4) + LittleEndian(HEADER_SIZE + |m.payload|, 4) + LittleEndian(m.kind, 4)
    + LittleEndian(m.sequence, 8) + LittleEndian(m.deadline, 8)
  }

  function FrameBytes(m: Message): (s: seq<Byte>)
    ensures |s| == HEADER_SIZE + |m.payload|
  {
    Header(m) + m.payload
  }

  /** What travels: the frame and its checksum. */
  function Wire(m: Message): (s: seq<Byte>)
    ensures |s| == |m.payload| + 32
  {
    FrameBytes(m) + RegisterBytes(Crc32(FrameBytes(m)), 4)
  }

  /** Fills one buffer in the order of the code; the buffer has room for the checksum. */
  method EncodeFrame(m: Message) returns (frame: array<Byte>)
    ensures fresh(frame)
    ensures frame[..] == Wire(m)
  {
    hide LittleEndian, RegisterBytes, Crc32;
    var total := HEADER_SIZE + |m.payload|;
    frame := new Byte[total + 4];
    WriteHeader(frame, m);
    CopyInto(frame, HEADER_SIZE, m.payload);
    assert frame[..total] == FrameBytes(m);
    var csum := ComputeCrc32(frame, total);
    WriteChecksum(frame, total, csum);
  }

  method WriteHeader(frame: array<Byte>, m: Message)
    requires frame.Length >= HEADER_SIZE
    modifies frame
    ensures frame[..] == Splice(old(frame[..]), 0, Header(m))
  {
    hide Splice, LittleEndian;
    ghost var was := frame[..];
    var length := HEADER_SIZE + |m.payload|;
    WriteLittleEndian(frame, 0, MAGIC, 4);
    ghost var a := LittleEndian(MAGIC, 4);
    WriteLittleEndian(frame, 4, length, 4);
    SpliceTwice(was, 0, a, LittleEndian(length, 4));
    ghost var b := a + LittleEndian(length, 4);
    WriteLittleEndian(frame, 8, m.kind, 4);
    SpliceTwice(was, 0, b, LittleEndian(m.kind, 4));
    ghost var c := b + LittleEndian(m.kind, 4);
    WriteLittleEndian(frame, 12, m.sequence, 8);
    SpliceTwice(was, 0, c, LittleEndian(m.sequence, 8));
    ghost var d := c + LittleEndian(m.sequence, 8);
    WriteLittleEndian(frame, 20, m.deadline, 8);
    SpliceTwice(was, 0, d, LittleEndian(m.deadline, 8));
  }

  method WriteChecksum(frame: array<Byte>, at: nat, csum: Register)
    requires at + 4 <= frame.Length
    modifies frame
    ensures frame[..] == Splice(old(frame[..]), at, RegisterBytes(csum, 4))
  {
    hide LowByte, Down, Splice;
    ghost var field := RegisterBytes(csum, 4);
    var rest := csum;
    SpliceNothing(frame[..], at);
    assert field[..0] == [];
    for i := 0 to 4
      invariant frame[..] == Splice(old(frame[..]), at, field[..i])
      invariant field[i..] == RegisterBytes(rest, 4 - i)
    {
      PutByte(frame, at + i, LowByte(rest));
      SpliceTwice(old(frame[..]), at, field[..i], [field[i]]);
      assert field[..i + 1] == field[..i] + [field[i]];
      assert field[i + 1..] == field[i..][1..];
      rest := Down(rest);
    }
    assert field[..4] == field;
  }

  // ---------------------------------------------------------------------------------------------
  // Receiving
  // ---------------------------------------------------------------------------------------------

  /** Outcome of one receive call: whether a frame was accepted, its bytes, and what is left to read. */
  datatype Received = Received(ok: bool, frame: seq<Byte>, rest: seq<Byte>)

  function Receive(s: seq<Byte>): Received {
    if |s| < HEADER_SIZE then Received(false, [], [])
    else if FromLittleEndian(s[..4]) != MAGIC then Received(false, [], s[HEADER_SIZE..])
    else
      var length := FromLittleEndian(s[4..8]);
      if length < HEADER_SIZE || length > MAX_FRAME_SIZE then Received(false, [], s[HEADER_SIZE..])
      else if |s| < length + 4 then Received(false, [], [])
      else Received(Word(s[length..length + 4]) == Crc32(s[..length]), s[..length], s[length + 4..])
  }

  /** A connection that delivers `incoming` in pieces; `cut` chooses the size of every read. */
  class Connection {
    var connected: bool
    var incoming: seq<Byte>
    var readCount: nat
    const cut: nat -> nat

    constructor (incoming: seq<Byte>, cut: nat -> nat)
      ensures connected && this.incoming == incoming && this.cut == cut
    {
      this.connected := true;
      this.incoming := incoming;
      this.readCount := 0;
      this.cut := cut;
    }

    /** Delivers between one and `want` of the pending bytes, or nothing at the end of the stream. */
    method SslRead(dst: array<Byte>, at: nat, want: nat) returns (n: nat)
      requires 0 < want && at + want <= dst.Length
      modifies this`incoming, this`readCount, dst
      ensures n == 0 <==> old(incoming) == []
      ensures n <= want && n <= |old(incoming)|
      ensures incoming == old(incoming)[n..]
      ensures dst[..] == Splice(old(dst[..]), at, old(incoming)[..n])
    {
      var limit := if |incoming| < want then |incoming| else want;
      n := if cut(readCount) < limit then cut(readCount) else limit;
      if n == 0 && limit > 0 {
        n := 1;
      }
      CopyInto(dst, at, incoming[..n]);
      incoming := incoming[n..];
      readCount := readCount + 1;
    }

    /** The read loop: keeps asking for the missing bytes until all have arrived or the stream ends. */
    method ReadFully(dst: array<Byte>, at: nat, want: nat) returns (ok: bool)
      requires at + want <= dst.Length
      modifies this`incoming, this`readCount, dst
      ensures ok <==> want <= |old(incoming)|
      ensures incoming == if ok then old(incoming)[want..] else []
      ensures ok ==> dst[..] == Splice(old(dst[..]), at, old(incoming)[..want])
    {
      hide Splice;
      var total := 0;
      SpliceNothing(dst[..], at);
      assert incoming[..0] == [];
      while total < want
        invariant total <= want && total <= |old(incoming)|
        invariant incoming == old(incoming)[total..]
        invariant dst[..] == Splice(old(dst[..]), at, old(incoming)[..total])
      {
        ghost var pending := incoming;
        var n := SslRead(dst, at + total, want - total);
        if n == 0 {
          return false;
        }
        assert old(incoming)[..total + n] == old(incoming)[..total] + pending[..n];
        SpliceTwice(old(dst[..]), at, old(incoming)[..total], pending[..n]);
        total := total + n;
      }
      ok := true;
    }

    /** Header, payload and checksum, each by its own read loop, then the checks in the order of the code. */
    method RecvFrame() returns (ok: bool, out: array<Byte>)
      modifies this`incoming, this`readCount
      ensures fresh(out)
      ensures !connected ==> !ok && incoming == old(incoming)
      ensures connected ==> ok == Receive(old(incoming)).ok && incoming == Receive(old(incoming)).rest
      ensures ok ==> out[..] == Receive(old(incoming)).frame
    {
      hide FromLittleEndian, Crc32, Word, Splice;
      ghost var s := incoming;
      out := new Byte[0];
      if !connected {
        return false, out;
      }
      var hdr := new Byte[HEADER_SIZE];
      ghost var blank := hdr[..];
      var got := ReadFully(hdr, 0, HEADER_SIZE);
      if !got {
        return false, out;
      }
      SpliceToEnd(blank, 0, s[..HEADER_SIZE]);
      assert hdr[..] == s[..HEADER_SIZE];
      assert hdr[..4] == s[..4] && hdr[4..8] == s[4..8];
      if FromLittleEndian(hdr[..4]) != MAGIC {
        return false, out;
      }
      var frameLen := FromLittleEndian(hdr[4..8]);
      if frameLen < HEADER_SIZE || frameLen > MAX_FRAME_SIZE {
        return false, out;
      }
      out := new Byte[frameLen](i requires 0 <= i < frameLen reads hdr => if i < HEADER_SIZE then hdr[i] else 0);
      assert out[..HEADER_SIZE] == hdr[..];
      blank := out[..];
      got := ReadFully(out, HEADER_SIZE, frameLen - HEADER_SIZE);
      if !got {
        return false, out;
      }
      SpliceToEnd(blank, HEADER_SIZE, s[HEADER_SIZE..frameLen]);
      assert s[HEADER_SIZE..][..frameLen - HEADER_SIZE] == s[HEADER_SIZE..frameLen];
      assert out[..] == s[..frameLen];
      assert incoming == s[frameLen..];
      var csumBuf := new Byte[4];
      blank := csumBuf[..];
      got := ReadFully(csumBuf, 0, 4);
      if !got {
        return false, out;
      }
      SpliceToEnd(blank, 0, s[frameLen..][..4]);
      assert csumBuf[..] == s[frameLen..frameLen + 4];
      assert incoming == s[frameLen + 4..];
      var actual := ComputeCrc32(out, frameLen);
      assert out[..frameLen] == out[..];
      ok := Word(csumBuf[..]) == actual;
    }

    /** The server side of one connection: receives frames until one is refused and hands the requests on to
        the registered handlers; requests for other methods are dropped. */
    method Serve(handlers: set<seq<Byte>>) returns (served: seq<Request>)
      modifies this`incoming, this`readCount
      ensures served == if connected then Filter(ServedFrom(old(incoming)), Registered(handlers)) else []
      ensures connected ==> forall r :: r in served <==> r in ServedFrom(old(incoming)) && r.name in handlers
    {
      served := [];
      if !connected {
        return;
      }
      hide Receive, Dispatch, Filter;
      ghost var s := incoming;
      ghost var all: seq<Request> := [];
      NothingFiltered(handlers);
      while connected
        invariant connected && all + ServedFrom(incoming) == ServedFrom(s)
        invariant served == Filter(all, Registered(handlers))
        decreases |incoming|
      {
        ghost var before := incoming;
        var ok, frame := RecvFrame();
        if !ok {
          assert ServedFrom(before) == [];
          assert all + [] == all;
          return;
        }
        ReceiveShortens(before);
        var requests := Dispatch(frame[..]);
        RegroupServed(all, requests, ServedFrom(incoming));
        all := all + requests;
        served := HandOn(handlers, served, requests, all);
      }
    }
  }

  lemma NothingFiltered(handlers: set<seq<Byte>>)
    ensures Filter([], Registered(handlers)) == []
  {
  }

  lemma RegroupServed(a: seq<Request>, b: seq<Request>, c: seq<Request>)
    ensures a + (b + c) == (a + b) + c
  {
  }

  function Registered(handlers: set<seq<Byte>>): Request -> bool {
    (r: Request) => r.name in handlers
  }

  /** Looks up the handler of the request that a frame carried, if it carried one. */
  method HandOn(handlers: set<seq<Byte>>, served: seq<Request>, requests: seq<Request>, ghost all: seq<Request>)
    returns (more: seq<Request>)
    requires |requests| <= 1
    requires exists before :: all == before + requests && served == Filter(before, Registered(handlers))
    ensures more == Filter(all, Registered(handlers))
  {
    ghost var before :| all == before + requests && served == Filter(before, Registered(handlers));
    FilterOfConcatenation(before, requests, Registered(handlers));
    more := served;
    if requests != [] {
      assert requests == [requests[0]] && requests[1..] == [];
      if requests[0].name in handlers {
        more := served + [requests[0]];
      }
    } else {
      assert served + [] == served;
    }
  }

  lemma ReceiveShortens(s: seq<Byte>)
    ensures Receive(s).ok ==> |Receive(s).rest| < |s| && |Receive(s).frame| >= HEADER_SIZE
  {
  }

  // ---------------------------------------------------------------------------------------------
  // Method envelope
  // ---------------------------------------------------------------------------------------------

  datatype Request = Request(name: seq<Byte>, sequence: U64, payload: seq<Byte>)

  function Envelope(name: seq<Byte>, payload: seq<Byte>): (s: seq<Byte>)
    ensures |s| == 4 + |name| + |payload|
  {
    LittleEndian(|name|, 4) + name + payload
  }

  function RequestWire(r: Request, deadline: U64): seq<Byte> {
    Wire(Message(UNARY_REQUEST, r.sequence, deadline, Envelope(r.name, r.payload)))
  }

  lemma {:induction false} FieldBound(s: seq<Byte>)
    ensures FromLittleEndian(s) < Capacity(|s|)
    decreases |s|
  {
    if s != [] {
      FieldBound(s[1..]);
      assert ByteValue(s[0]) < 256;
    }
  }

  function ReadU64(s: seq<Byte>): U64
    requires |s| == 8
  {
    FieldBound(s);
    Capacities();
    FromLittleEndian(s)
  }

  /** The request carried by an accepted frame, if it is a unary request with a well-formed envelope. */
  function Dispatch(frame: seq<Byte>): (r: seq<Request>)
    requires |frame| >= HEADER_SIZE
    ensures |r| <= 1
  {
    var payload := frame[HEADER_SIZE..];
    if FromLittleEndian(frame[8..12]) != UNARY_REQUEST || |payload| < 4 then []
    else
      var n := FromLittleEndian(payload[..4]);
      if |payload| < 4 + n then []
      else [Request(payload[4..4 + n], ReadU64(frame[12..20]), payload[4 + n..])]
  }

  function ServedFrom(s: seq<Byte>): seq<Request>
    decreases |s|
  {
    ReceiveShortens(s);
    var r := Receive(s);
    if r.ok then Dispatch(r.frame) + ServedFrom(r.rest) else []
  }

  /** The code's bound on the method length, whose sum is taken in 32 bits. */
  predicate GuardIn32Bits(payload: seq<Byte>)
    requires |payload| >= 4
  {
    |payload| >= (4 + FromLittleEndian(payload[..4])) % 0x1_0000_0000
  }

  /** The bound decides whether the method name lies inside the payload exactly when the length field is
      below 2^32 - 4. */
  lemma GuardIsRightIff(payload: seq<Byte>)
    requires 4 <= |payload| <= MAX_FRAME_SIZE
    ensures (GuardIn32Bits(payload) <==> |payload| >= 4 + FromLittleEndian(payload[..4]))
            <==> FromLittleEndian(payload[..4]) < 0xFFFF_FFFC
  {
    FieldBound(payload[..4]);
    Capacities();
    hide FromLittleEndian;
  }

  /** For every larger length, a payload that passes a bound it should not pass. */
  lemma GuardPassesHugeLength(n: nat)
    requires 0xFFFF_FFFC <= n < 0x1_0000_0000
    ensures var payload := LittleEndian(n, 4);
            GuardIn32Bits(payload) && |payload| < 4 + FromLittleEndian(payload[..4])
  {
    hide LittleEndian, FromLittleEndian;
    var payload := LittleEndian(n, 4);
    Capacities();
    FieldRoundTrip(n, 4);
    assert payload[..4] == payload;
  }

  // ---------------------------------------------------------------------------------------------
  // Round trips
  // ---------------------------------------------------------------------------------------------

  predicate Sendable(m: Message) {
    HEADER_SIZE + |m.payload| <= MAX_FRAME_SIZE
  }

  /** The message carried by an accepted frame. */
  function Decode(frame: seq<Byte>): Message
    requires |frame| >= HEADER_SIZE
  {
    Capacities();
    FieldBound(frame[8..12]);
    Message(FromLittleEndian(frame[8..12]), ReadU64(frame[12..20]), ReadU64(frame[20..28]), frame[HEADER_SIZE..])
  }

  lemma {:induction false} HeaderFields(m: Message)
    requires Sendable(m)
    ensures FromLittleEndian(FrameBytes(m)[..4]) == MAGIC
    ensures FromLittleEndian(FrameBytes(m)[4..8]) == HEADER_SIZE + |m.payload|
    ensures Decode(FrameBytes(m)) == m
  {
    hide LittleEndian, FromLittleEndian;
    Capacities();
    var f := FrameBytes(m);
    FieldRoundTrip(MAGIC, 4);
    FieldRoundTrip(HEADER_SIZE + |m.payload|, 4);
    FieldRoundTrip(m.kind, 4);
    FieldRoundTrip(m.sequence, 8);
    FieldRoundTrip(m.deadline, 8);
    assert f[..4] == LittleEndian(MAGIC, 4);
    assert f[4..8] == LittleEndian(HEADER_SIZE + |m.payload|, 4);
    assert f[8..12] == LittleEndian(m.kind, 4);
    assert f[12..20] == LittleEndian(m.sequence, 8);
    assert f[20..28] == LittleEndian(m.deadline, 8);
    assert f[HEADER_SIZE..] == m.payload;
  }

  /** One frame at the head of a stream is accepted whole and exactly its bytes are consumed. */
  lemma {:induction false} ReceiveWire(m: Message, tail: seq<Byte>)
    requires Sendable(m)
    ensures Receive(Wire(m) + tail) == Received(true, FrameBytes(m), tail)
  {
    hide LittleEndian, FromLittleEndian, RegisterBytes, Crc32, Word, Fits, Header;
    var s := Wire(m) + tail;
    var f := FrameBytes(m);
    HeaderFields(m);
    assert s[..4] == f[..4] && s[4..8] == f[4..8];
    assert s[..|f|] == f;
    assert s[|f|..|f| + 4] == RegisterBytes(Crc32(f), 4);
    assert s[|f| + 4..] == tail;
    EveryRegisterFits(Crc32(f));
    ChecksumRoundTrip(Crc32(f), 4);
  }

  /** The frame buffer of the code ends before the checksum, and that buffer is what is sent.  Such a frame is
      accepted exactly if the next four bytes of the stream happen to be its checksum. */
  lemma {:induction false} AsSentAcceptedIff(m: Message, tail: seq<Byte>)
    requires Sendable(m)
    ensures Receive(FrameBytes(m) + tail).ok <==> |tail| >= 4 && Word(tail[..4]) == Crc32(FrameBytes(m))
  {
    hide LittleEndian, FromLittleEndian, Crc32, Word, Header, FrameBytes, Decode, Receive;
    HeaderFields(m);
    var f := FrameBytes(m);
    assert (f + tail)[..4] == f[..4] && (f + tail)[4..8] == f[4..8];
    ReceiveSplit(f, tail);
  }

  lemma ReceiveSplit(f: seq<Byte>, tail: seq<Byte>)
    requires HEADER_SIZE <= |f| <= MAX_FRAME_SIZE
    requires FromLittleEndian((f + tail)[..4]) == MAGIC && FromLittleEndian((f + tail)[4..8]) == |f|
    ensures Receive(f + tail).ok <==> |tail| >= 4 && Word(tail[..4]) == Crc32(f)
  {
    hide FromLittleEndian, Word, Crc32;
    var s := f + tail;
    assert s[..|f|] == f;
    if |tail| >= 4 {
      assert s[|f|..|f| + 4] == tail[..4];
    }
  }

  /** So a frame sent alone is refused, and one followed by another frame is accepted exactly if its checksum
      happens to be the magic number. */
  lemma {:induction false} AsSentBackToBack(m: Message, next: Message, tail: seq<Byte>)
    requires Sendable(m) && Sendable(next)
    ensures !Receive(FrameBytes(m)).ok
    ensures Receive(FrameBytes(m) + (FrameBytes(next) + tail)).ok <==> Word(LittleEndian(MAGIC, 4)) == Crc32(FrameBytes(m))
  {
    hide FrameBytes, Receive, Word, Crc32, LittleEndian, Sendable;
    AsSentAcceptedIff(m, []);
    AsSentAcceptedIff(m, FrameBytes(next) + tail);
    assert FrameBytes(m) + [] == FrameBytes(m);
    FrameStart(next);
    assert (FrameBytes(next) + tail)[..4] == FrameBytes(next)[..4];
  }

  lemma FrameStart(m: Message)
    ensures FrameBytes(m)[..4] == LittleEndian(MAGIC, 4)
  {
    hide LittleEndian;
  }

  lemma EveryRegisterFits(x: Register)
    ensures Fits(x, 4)
  {
    assert x.bits & 0 == 0;
  }

  lemma NothingReceived()
    ensures !Receive([]).ok
  {
  }

  function WireAll(ms: seq<Message>): seq<Byte> {
    if ms == [] then [] else Wire(ms[0]) + WireAll(ms[1..])
  }

  /** Every message a receiver accepts from a stream, in order, until a receive call fails. */
  function MessagesFrom(s: seq<Byte>): seq<Message>
    decreases |s|
  {
    ReceiveShortens(s);
    var r := Receive(s);
    if r.ok then [Decode(r.frame)] + MessagesFrom(r.rest) else []
  }

  /** Framing round trip for every list of messages. */
  lemma {:induction false} StreamRoundTrip(ms: seq<Message>)
    requires forall i :: 0 <= i < |ms| ==> Sendable(ms[i])
    ensures MessagesFrom(WireAll(ms)) == ms
    decreases |ms|
  {
    hide MessagesFrom, Receive, Decode, Wire, FrameBytes, Sendable;
    if ms == [] {
      NoMessages();
    } else {
      OneMoreMessage(ms[0], WireAll(ms[1..]));
      StreamRoundTrip(ms[1..]);
      assert ms == [ms[0]] + ms[1..];
    }
  }

  lemma NoMessages()
    ensures MessagesFrom([]) == []
  {
    NothingReceived();
    hide Receive;
  }

  lemma OneMoreMessage(m: Message, s: seq<Byte>)
    requires Sendable(m)
    ensures MessagesFrom(Wire(m) + s) == [m] + MessagesFrom(s)
  {
    hide Receive, Decode, Wire, FrameBytes, Sendable;
    ReceiveWire(m, s);
    HeaderFields(m);
  }

  function RequestsWire(rs: seq<Request>, deadline: U64): seq<Byte> {
    if rs == [] then [] else RequestWire(rs[0], deadline) + RequestsWire(rs[1..], deadline)
  }

  lemma {:induction false} DispatchEnvelope(r: Request, deadline: U64)
    requires HEADER_SIZE + 4 + |r.name| + |r.payload| <= MAX_FRAME_SIZE
    ensures Dispatch(FrameBytes(Message(UNARY_REQUEST, r.sequence, deadline, Envelope(r.name, r.payload)))) == [r]
  {
    var e := Envelope(r.name, r.payload);
    var m := Message(UNARY_REQUEST, r.sequence, deadline, e);
    HeaderFields(m);
    EnvelopeSplits(r.name, r.payload);
    hide LittleEndian, FromLittleEndian, Envelope, FrameBytes;
    assert Decode(FrameBytes(m)) == m;
  }

  lemma EnvelopeSplits(name: seq<Byte>, payload: seq<Byte>)
    requires |name| < 0x1_0000_0000
    ensures var e := Envelope(name, payload);
            FromLittleEndian(e[..4]) == |name| && e[4..4 + |name|] == name && e[4 + |name|..] == payload
  {
    hide LittleEndian, FromLittleEndian;
    Capacities();
    FieldRoundTrip(|name|, 4);
    var e := Envelope(name, payload);
    assert e[..4] == LittleEndian(|name|, 4);
    assert e[4..4 + |name|] == name;
    assert e[4 + |name|..] == payload;
  }

  /** End to end: the server hands on exactly the requests that were sent, in order. */
  lemma {:induction false} RequestsRoundTrip(rs: seq<Request>, deadline: U64)
    requires forall i :: 0 <= i < |rs| ==> HEADER_SIZE + 4 + |rs[i].name| + |rs[i].payload| <= MAX_FRAME_SIZE
    ensures ServedFrom(RequestsWire(rs, deadline)) == rs
    decreases |rs|
  {
    NothingReceived();
    hide Receive, Dispatch, Wire, Envelope, FrameBytes;
    if rs != [] {
      assert Sendable(Message(UNARY_REQUEST, rs[0].sequence, deadline, Envelope(rs[0].name, rs[0].payload)));
      var m := Message(UNARY_REQUEST, rs[0].sequence, deadline, Envelope(rs[0].name, rs[0].payload));
      ReceiveWire(m, RequestsWire(rs[1..], deadline));
      DispatchEnvelope(rs[0], deadline);
      RequestsRoundTrip(rs[1..], deadline);
      assert rs == [rs[0]] + rs[1..];
    }
  }

  // ---------------------------------------------------------------------------------------------
  // Corruption
  // ---------------------------------------------------------------------------------------------

  /** A frame whose stream ends early is never accepted. */
  lemma TruncationRejected(m: Message, n: nat)
    requires Sendable(m)
    requires n < |Wire(m)|
    ensures !Receive(Wire(m)[..n]).ok
  {
    hide LittleEndian, FromLittleEndian, RegisterBytes, Crc32, Word, Header;
    if n >= HEADER_SIZE {
      var w := Wire(m)[..n];
      HeaderFields(m);
      assert w[..4] == FrameBytes(m)[..4];
      assert w[4..8] == FrameBytes(m)[4..8];
    }
  }

  /** Damage confined to four consecutive bytes that leaves the length field alone is always noticed,
      wherever it falls: header, payload, checksum, or across a boundary between them. */
  lemma {:induction false} BurstRejected(m: Message, damaged: seq<Byte>, at: nat, tail: seq<Byte>)
    requires Sendable(m)
    requires |damaged| == |Wire(m)|
    requires damaged != Wire(m)
    requires forall i :: 0 <= i < |damaged| && !(at <= i < at + 4) ==> damaged[i] == Wire(m)[i]
    requires forall i :: 4 <= i < 8 ==> damaged[i] == Wire(m)[i]
    ensures !Receive(damaged + tail).ok
  {
    hide LittleEndian, FromLittleEndian, RegisterBytes, Crc32, Word, Header;
    var w := Wire(m);
    var f := FrameBytes(m);
    var s := damaged + tail;
    HeaderFields(m);
    assert s[4..8] == damaged[4..8] == w[4..8] == f[4..8];
    assert w[..4] == f[..4];
    if Receive(s).ok {
      assert s[..|f|] == damaged[..|f|];
      assert s[|f|..|f| + 4] == damaged[|f|..];
      DamagedChecksum(m, damaged, at);
    }
  }

  lemma {:induction false} DamagedChecksum(m: Message, damaged: seq<Byte>, at: nat)
    requires |damaged| == |Wire(m)|
    requires damaged != Wire(m)
    requires forall i :: 0 <= i < |damaged| && !(at <= i < at + 4) ==> damaged[i] == Wire(m)[i]
    ensures Word(damaged[|FrameBytes(m)|..]) != Crc32(damaged[..|FrameBytes(m)|])
  {
    hide LittleEndian, RegisterBytes, Crc32, Word, Fits, Header, State, Rounds;
    var w := Wire(m);
    var n := |FrameBytes(m)|;
    assert w[..n] == FrameBytes(m) && w[n..] == RegisterBytes(Crc32(FrameBytes(m)), 4);
    EveryRegisterFits(Crc32(FrameBytes(m)));
    ChecksumRoundTrip(Crc32(FrameBytes(m)), 4);
    ChecksumHoldsIffResidue(w[..n], w[n..]);
    ChecksumHoldsIffResidue(damaged[..n], damaged[n..]);
    assert w[..n] + w[n..] == w && damaged[..n] + damaged[n..] == damaged;
    var lo := if at < |w| then at else |w|;
    var hi := if at + 4 < |w| then at + 4 else |w|;
    assert w == w[..lo] + w[lo..hi] + w[hi..];
    assert damaged == w[..lo] + damaged[lo..hi] + w[hi..];
    BurstChangesState(ALL_ONES, w[..lo], w[lo..hi], damaged[lo..hi], w[hi..]);
  }
}
