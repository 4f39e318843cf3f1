/**
 `crc` of src/memory/MemBuf.cpp: the table-driven loop computes the bit-serial CRC-32, is affine
 over xor, chains over any split of the data, and detects every error burst of up to 32 bits.
 */
module Crc32 {
  import opened CrcTable
  import opened ShiftRegister
  import opened Wrappers

  // ---------- The bit-serial definition ----------

  function Xor(x: bv32, y: bv32): bv32 { x ^ y }

  predicate Odd(x: bv32) { x & 1 == 1 }

  function Half(x: bv32): bv32 { x >> 1 }

  /** The reflected 32-bit register with the CRC-32 feedback. */
  const REGISTER: Register<bv32> := Register(ShiftBit, Xor, 0, 1, Odd, Half)

  function BitMask(j: nat): bv8
    requires j < 8
  {
    if j == 0 then 1 else if j == 1 then 2 else if j == 2 then 4 else if j == 3 then 8
    else if j == 4 then 16 else if j == 5 then 32 else if j == 6 then 64 else 128
  }

  predicate BitAt(b: bv8, j: nat)
    requires j < 8
  {
    b & BitMask(j) != 0
  }

  /** The bits of a byte in transmission order, least significant first. */
  function ByteBits(b: bv8): (bits: seq<bool>)
    ensures |bits| == 8
  {
    seq(8, j requires 0 <= j < 8 => BitAt(b, j))
  }

  function Bits(buf: seq<bv8>): (bits: seq<bool>)
    ensures |bits| == 8 * |buf|
  {
    if buf == [] then [] else ByteBits(buf[0]) + Bits(buf[1..])
  }

  /** The register run over a buffer, one bit at a time. */
  function BitSerial(r: bv32, buf: seq<bv8>): bv32 {
    Run(REGISTER, r, Bits(buf))
  }

  /** CRC-32 of a buffer: preset to ones, clock every bit, complement (section 8 of RFC 1952). */
  function Checksum(buf: seq<bv8>): bv32 {
    BitSerial(0xffff_ffff, buf) ^ 0xffff_ffff
  }

  // ---------- The program ----------

  /**
   `crc`. With no initial value it is the checksum of the buffer; with one, the value is only run
   forward, which is what lets a caller chain several buffers.
   */
  method Crc(buf: seq<bv8>, init: Option<bv32>) returns (val: bv32)
    ensures init.None? ==> val == Checksum(buf)
    ensures init.Some? ==> val == BitSerial(init.value, buf)
  {
    val := if init.Some? then init.value else 0;
    if |buf| == 0 {
      return;
    }
    if init.None? {
      val := 0xffff_ffff;
    }
    ghost var start := val;
    var i := 0;
    while i < |buf|
      invariant 0 <= i <= |buf|
      invariant val == BitSerial(start, buf[..i])
    {
      ExtendByOneByte(start, buf, i);
      val := LookUp(val, buf[i]);
      i := i + 1;
    }
    assert buf[..i] == buf;
    if init.None? {
      val := val ^ 0xffff_ffff;
    }
  }

  /** The body of the main loop: one table look-up does what eight clocks do. */
  method LookUp(r: bv32, b: bv8) returns (val: bv32)
    ensures val == Run(REGISTER, r, ByteBits(b))
  {
    var i := (r & 0xff) as bv8 ^ b;
    var entry := Entry(i);
    EightClocks(r, b, i);
    val := entry ^ (r >> 8);
  }

  /** An entry of the table: its index, clocked eight times. */
  method Entry(i: bv8) returns (entry: bv32)
    ensures entry == Idle(REGISTER, i as bv32, 8)
  {
    IdleEight(i as bv32);
    TableIsShiftByte(i);
    entry := Table(i);
  }

  /** The two chained calls and the final complement that the comment on `crc` prescribes. */
  method CrcOfTwo(p1: seq<bv8>, p2: seq<bv8>) returns (val: bv32)
    ensures val == Checksum(p1 + p2)
  {
    val := Crc(p1, Some(0xffff_ffff));
    val := Crc(p2, Some(val));
    val := val ^ 0xffff_ffff;
    BitSerialConcatenation(0xffff_ffff, p1, p2);
  }

  // ---------- The register obeys the laws ----------

  lemma RegisterLaws()
    ensures Laws(REGISTER)
  {
    RegisterXor();
    RegisterLinear();
    RegisterZero();
    RegisterEven();
    RegisterLowBit();
  }

  lemma RegisterClockLaws()
    ensures ClockLaws(REGISTER)
  {
    RegisterLaws();
    LawsOfOneClock(REGISTER);
  }

  lemma RegisterXor()
    ensures XorGroup(REGISTER)
  {
    forall x, y, z
      ensures Associates(REGISTER, x, y, z)
    {
      XorAssociates(x, y, z);
    }
  }

  lemma XorAssociates(x: bv32, y: bv32, z: bv32)
    ensures Xor(Xor(x, y), z) == Xor(x, Xor(y, z))
  {
    assert (x ^ y) ^ z == x ^ (y ^ z);
  }

  lemma RegisterLinear()
    ensures Linear(REGISTER)
  {
    forall x, y
      ensures REGISTER.clock(REGISTER.xor(x, y)) == REGISTER.xor(REGISTER.clock(x), REGISTER.clock(y))
    {
      ClockXor(x, y);
    }
  }

  lemma ClockXor(x: bv32, y: bv32)
    ensures REGISTER.clock(REGISTER.xor(x, y)) == REGISTER.xor(REGISTER.clock(x), REGISTER.clock(y))
  {
    ShiftBitXor(x, y);
  }

  lemma ShiftBitXor(x: bv32, y: bv32)
    ensures ShiftBit(x ^ y) == ShiftBit(x) ^ ShiftBit(y)
  {
    assert (x ^ y) >> 1 == (x >> 1) ^ (y >> 1);
    assert (x ^ y) & 1 == (x & 1) ^ (y & 1);
    LowBit(x);
    LowBit(y);
    XorCancels(x >> 1, y >> 1, POLYNOMIAL);
  }

  lemma LowBit(x: bv32)
    ensures x & 1 == 0 || x & 1 == 1
  {
  }

  lemma XorCancels(x: bv32, y: bv32, p: bv32)
    ensures (x ^ p) ^ (y ^ p) == x ^ y
    ensures (x ^ p) ^ y == (x ^ y) ^ p
    ensures x ^ (y ^ p) == (x ^ y) ^ p
  {
  }

  lemma RegisterZero()
    ensures ZeroIsFixed(REGISTER)
  {
  }

  lemma RegisterEven()
    ensures PlainWhenEven(REGISTER)
  {
  }

  lemma RegisterLowBit()
    ensures LowBitSplits(REGISTER)
  {
  }

  // ---------- Concatenation ----------

  lemma {:induction false} BitsOfConcatenation(a: seq<bv8>, b: seq<bv8>)
    ensures Bits(a + b) == Bits(a) + Bits(b)
  {
    if a == [] {
      assert a + b == b;
    } else {
      assert (a + b)[0] == a[0] && (a + b)[1..] == a[1..] + b;
      BitsOfConcatenation(a[1..], b);
      assert ByteBits(a[0]) + (Bits(a[1..]) + Bits(b)) == (ByteBits(a[0]) + Bits(a[1..])) + Bits(b);
    }
  }

  /** Running over two buffers in turn is running over them joined, from any starting value. */
  lemma BitSerialConcatenation(r: bv32, a: seq<bv8>, b: seq<bv8>)
    ensures BitSerial(r, a + b) == BitSerial(BitSerial(r, a), b)
  {
    BitsOfConcatenation(a, b);
    RunConcatenation(REGISTER, r, Bits(a), Bits(b));
  }

  lemma ExtendByOneByte(start: bv32, buf: seq<bv8>, i: nat)
    requires i < |buf|
    ensures BitSerial(start, buf[..i + 1]) == Run(REGISTER, BitSerial(start, buf[..i]), ByteBits(buf[i]))
  {
    assert buf[..i + 1] == buf[..i] + [buf[i]];
    BitSerialConcatenation(start, buf[..i], [buf[i]]);
    assert Bits([buf[i]]) == ByteBits(buf[i]) + Bits([]) == ByteBits(buf[i]);
  }

  // ---------- One look-up = eight clocks ----------

  lemma EightClocks(r: bv32, b: bv8, i: bv8)
    requires i == (r & 0xff) as bv8 ^ b
    ensures Idle(REGISTER, i as bv32, 8) ^ (r >> 8) == Run(REGISTER, r, ByteBits(b))
  {
    var low, high, rest := SplitWord(r, b, i);
    RunByte(r, b, low, high, rest);
  }

  lemma SplitWord(r: bv32, b: bv8, i: bv8) returns (low: bv32, high: bv32, rest: bv32)
    requires i == (r & 0xff) as bv8 ^ b
    ensures Xor(r, b as bv32) == Xor(low, high) && high & 0xff == 0 && high >> 8 == rest
    ensures low == i as bv32 && rest == r >> 8
  {
    low, high, rest := i as bv32, r & 0xffff_ff00, r >> 8;
    HighPart(r, b, i, high);
  }

  lemma HighPart(r: bv32, b: bv8, i: bv8, high: bv32)
    requires i == (r & 0xff) as bv8 ^ b && high == r & 0xffff_ff00
    ensures Xor(r, b as bv32) == Xor(i as bv32, high)
    ensures high >> 8 == r >> 8 && high & 0xff == 0
  {
  }

  lemma RunByte(r: bv32, b: bv8, low: bv32, high: bv32, rest: bv32)
    requires Xor(r, b as bv32) == Xor(low, high) && high & 0xff == 0 && high >> 8 == rest
    ensures Idle(REGISTER, low, 8) ^ rest == Run(REGISTER, r, ByteBits(b))
  {
    var w := b as bv32;
    assert w >> 8 == 0;
    WordBits(w, b);
    DropEight(w);
    DropEight(high);
    HighBitsClear(high);
    RunWordByte(r, w, low, high);
  }

  lemma RunWordByte(r: bv32, w: bv32, low: bv32, high: bv32)
    requires REGISTER.xor(r, w) == REGISTER.xor(low, high)
    requires Drop(REGISTER, w, 8) == REGISTER.zero
    requires forall j :: 0 <= j < 8 ==> !LowBits(REGISTER, high, 8)[j]
    ensures Run(REGISTER, r, LowBits(REGISTER, w, 8)) == REGISTER.xor(Idle(REGISTER, low, 8), Drop(REGISTER, high, 8))
  {
    RegisterClockLaws();
    RunBySplitting(REGISTER, r, w, low, high, 8);
  }

  lemma DropEight(w: bv32)
    ensures Drop(REGISTER, w, 0) == w && Drop(REGISTER, w, 1) == w >> 1 && Drop(REGISTER, w, 2) == w >> 2
    ensures Drop(REGISTER, w, 3) == w >> 3 && Drop(REGISTER, w, 4) == w >> 4 && Drop(REGISTER, w, 5) == w >> 5
    ensures Drop(REGISTER, w, 6) == w >> 6 && Drop(REGISTER, w, 7) == w >> 7 && Drop(REGISTER, w, 8) == w >> 8
  {
    HalfOfShift(w);
    DropLast(REGISTER, w, 0);
    DropLast(REGISTER, w, 1);
    DropLast(REGISTER, w, 2);
    DropLast(REGISTER, w, 3);
    DropLast(REGISTER, w, 4);
    DropLast(REGISTER, w, 5);
    DropLast(REGISTER, w, 6);
    DropLast(REGISTER, w, 7);
  }

  lemma HalfOfShift(w: bv32)
    ensures Half(w) == w >> 1 && Half(w >> 1) == w >> 2 && Half(w >> 2) == w >> 3 && Half(w >> 3) == w >> 4
    ensures Half(w >> 4) == w >> 5 && Half(w >> 5) == w >> 6 && Half(w >> 6) == w >> 7 && Half(w >> 7) == w >> 8
  {
  }

  lemma IdleEight(w: bv32)
    ensures Idle(REGISTER, w, 8) == ShiftByte(w)
  {
  }

  lemma WordBits(w: bv32, b: bv8)
    requires w == b as bv32
    ensures LowBits(REGISTER, w, 8) == ByteBits(b)
  {
    forall j | 0 <= j < 8
      ensures LowBits(REGISTER, w, 8)[j] == BitAt(b, j)
    {
      LowBitAt(REGISTER, w, 8, j);
      DroppedBit(w, b, j);
    }
  }

  lemma DroppedBit(w: bv32, b: bv8, j: nat)
    requires w == b as bv32 && j < 8
    ensures REGISTER.odd(Drop(REGISTER, w, j)) == BitAt(b, j)
  {
    BitOfWord(w, b, j);
    DropEight(w);
    if {
      case j == 0 =>
      case j == 1 =>
      case j == 2 =>
      case j == 3 =>
      case j == 4 =>
      case j == 5 =>
      case j == 6 =>
      case j == 7 =>
    }
  }

  lemma BitOfWord(w: bv32, b: bv8, j: nat)
    requires w == b as bv32 && j < 8
    ensures BitAt(b, j) == Odd(w >> j)
  {
    if {
      case j == 0 =>
      case j == 1 =>
      case j == 2 =>
      case j == 3 =>
      case j == 4 =>
      case j == 5 =>
      case j == 6 =>
      case j == 7 =>
    }
  }

  lemma HighBitsClear(high: bv32)
    requires high & 0xff == 0
    ensures forall j :: 0 <= j < 8 ==> !LowBits(REGISTER, high, 8)[j]
  {
    forall j | 0 <= j < 8
      ensures !LowBits(REGISTER, high, 8)[j]
    {
      LowBitAt(REGISTER, high, 8, j);
      DropEight(high);
    }
  }

  // ---------- Affinity ----------

  function XorBytes(x: seq<bv8>, y: seq<bv8>): (z: seq<bv8>)
    requires |x| == |y|
    ensures |z| == |x|
  {
    seq(|x|, i requires 0 <= i < |x| => x[i] ^ y[i])
  }

  lemma {:induction false} BitsXor(x: seq<bv8>, y: seq<bv8>)
    requires |x| == |y|
    ensures Bits(XorBytes(x, y)) == XorBits(Bits(x), Bits(y))
  {
    if x != [] {
      assert XorBytes(x, y)[1..] == XorBytes(x[1..], y[1..]);
      BitsXor(x[1..], y[1..]);
      ByteBitsXor(x[0], y[0]);
      XorBitsOfJoined(ByteBits(x[0]), Bits(x[1..]), ByteBits(y[0]), Bits(y[1..]));
    }
  }

  lemma XorBitsOfJoined(a: seq<bool>, b: seq<bool>, c: seq<bool>, d: seq<bool>)
    requires |a| == |c| && |b| == |d|
    ensures XorBits(a + b, c + d) == XorBits(a, c) + XorBits(b, d)
  {
  }

  lemma ByteBitsXor(a: bv8, b: bv8)
    ensures ByteBits(a ^ b) == XorBits(ByteBits(a), ByteBits(b))
  {
    forall j | 0 <= j < 8
      ensures BitAt(a ^ b, j) == (BitAt(a, j) != BitAt(b, j))
    {
      BitXor(a, b, j);
    }
  }

  lemma BitXor(a: bv8, b: bv8, j: nat)
    requires j < 8
    ensures BitAt(a ^ b, j) == (BitAt(a, j) != BitAt(b, j))
  {
    MaskXor(a, b, BitMask(j));
  }

  lemma MaskXor(a: bv8, b: bv8, m: bv8)
    requires m == 1 || m == 2 || m == 4 || m == 8 || m == 16 || m == 32 || m == 64 || m == 128
    ensures ((a ^ b) & m != 0) == ((a & m != 0) != (b & m != 0))
  {
  }

  /** The checksum is affine: on buffers of one length it commutes with the xor of three of them. */
  lemma ChecksumAffine(x: seq<bv8>, y: seq<bv8>, z: seq<bv8>)
    requires |x| == |y| == |z|
    ensures Checksum(x) ^ Checksum(y) ^ Checksum(z) == Checksum(XorBytes(XorBytes(x, y), z))
  {
    var ones: bv32 := 0xffff_ffff;
    BitsXor(x, y);
    BitsXor(XorBytes(x, y), z);
    RunXorOfThree(ones, Bits(x), Bits(y), Bits(z));
    XorOfThree(BitSerial(ones, x), BitSerial(ones, y), BitSerial(ones, z), ones);
  }

  lemma RunXorOfThree(r: bv32, a: seq<bool>, b: seq<bool>, c: seq<bool>)
    requires |a| == |b| == |c|
    ensures Run(REGISTER, r, XorBits(XorBits(a, b), c))
        == Run(REGISTER, r, a) ^ Run(REGISTER, r, b) ^ Run(REGISTER, r, c)
  {
    RegisterClockLaws();
    assert (r ^ r) ^ r == r;
    RunAffine(REGISTER, r, a, b, c);
  }

  lemma XorOfThree(x: bv32, y: bv32, z: bv32, m: bv32)
    ensures (x ^ m) ^ (y ^ m) ^ (z ^ m) == (x ^ y ^ z) ^ m
  {
  }

  // ---------- Burst detection ----------

  /** One of the top k bits is set. */
  predicate TopSet(r: bv32, k: nat)
    decreases k
  {
    if k == 0 then false else r & 0x8000_0000 != 0 || TopSet(r << 1, k - 1)
  }

  /** A shift moves the top bits down one, and the feedback sets the top; the data only enters at the bottom. */
  lemma TopSetAdvances(r: bv32, k: nat)
    requires k < 32 && TopSet(r, k)
    ensures TopSet(ShiftBit(r), k + 1) && TopSet(ShiftBit(Xor(r, 1)), k + 1)
  {
    ShiftKeepsTop(r, k);
    LowBitIsNotTop(k);
    TopSetXor(r, 1, k);
    ShiftKeepsTop(r ^ 1, k);
  }

  lemma ShiftKeepsTop(r: bv32, k: nat)
    requires TopSet(r, k)
    ensures TopSet(ShiftBit(r), k + 1)
  {
    LowBit(r);
    if r & 1 == 1 {
      FeedbackSetsTop(r);
    } else {
      EvenShift(r);
    }
  }

  lemma FeedbackSetsTop(r: bv32)
    requires r & 1 == 1
    ensures ShiftBit(r) & 0x8000_0000 != 0
  {
  }

  lemma EvenShift(r: bv32)
    requires r & 1 == 0
    ensures ShiftBit(r) << 1 == r
  {
  }

  lemma TopSetXor(r: bv32, p: bv32, k: nat)
    requires !TopSet(p, k)
    ensures TopSet(r ^ p, k) == TopSet(r, k)
  {
    TopSetOfXor(r ^ p, r, p, k);
  }

  /** Kept folded, so that the bits are looked at one place at a time; Look(0) opens it. */
  ghost predicate IsXor(q: bv32, r: bv32, p: bv32) {
    forall key {:trigger Look(key)} :: Look(key) ==> q == r ^ p
  }

  lemma {:induction false} TopSetOfXor(q: bv32, r: bv32, p: bv32, k: nat)
    requires IsXor(q, r, p) && !TopSet(p, k)
    ensures TopSet(q, k) == TopSet(r, k)
    decreases k
  {
    if k > 0 {
      TopOfXor(q, r, p);
      TopSetOfXor(q << 1, r << 1, p << 1, k - 1);
    }
  }

  lemma TopOfXor(q: bv32, r: bv32, p: bv32)
    requires IsXor(q, r, p) && p & 0x8000_0000 == 0
    ensures q & 0x8000_0000 == r & 0x8000_0000 && IsXor(q << 1, r << 1, p << 1)
  {
    assert Look(0);
    TopBitXor(r, p);
    ShiftLeftXor(r, p);
  }

  lemma TopBitXor(r: bv32, p: bv32)
    requires p & 0x8000_0000 == 0
    ensures (r ^ p) & 0x8000_0000 == r & 0x8000_0000
  {
  }

  lemma ShiftLeftXor(r: bv32, p: bv32)
    ensures (r ^ p) << 1 == (r << 1) ^ (p << 1)
  {
  }

  lemma {:induction false} ZeroHasNoTop(k: nat)
    ensures !TopSet(0, k)
  {
    if k > 0 {
      ZeroHasNoTop(k - 1);
    }
  }

  lemma LowBitIsNotTop(k: nat)
    requires k < 32
    ensures !TopSet(1, k)
  {
    OneBitNotTop(31);
    TopSetMonotone(1, k, 31);
  }

  lemma {:induction false} OneBitNotTop(k: bv8)
    requires k <= 31
    ensures !TopSet(0x8000_0000 >> k, k as nat)
    decreases k as nat
  {
    if k > 0 {
      BitBelow(k);
      OneBitNotTop(k - 1);
    }
  }

  lemma BitBelow(k: bv8)
    requires 0 < k <= 31
    ensures (k - 1) as nat == k as nat - 1
    ensures var p: bv32 := 0x8000_0000; (p >> k) << 1 == p >> (k - 1) && (p >> k) & 0x8000_0000 == 0
  {
  }

  lemma {:induction false} TopSetMonotone(r: bv32, j: nat, k: nat)
    requires j <= k && !TopSet(r, k)
    ensures !TopSet(r, j)
    decreases k
  {
    if j > 0 {
      TopSetMonotone(r << 1, j - 1, k - 1);
    }
  }

  lemma TopSetLives()
    ensures Advances(REGISTER, TopSet, 32)
    ensures TopSet(REGISTER.clock(REGISTER.one), 1)
    ensures forall k :: 0 <= k <= 32 ==> !TopSet(REGISTER.zero, k)
  {
    forall r, bit, k | 0 <= k < 32 && TopSet(r, k)
      ensures TopSet(REGISTER.clock(Feed(REGISTER, r, bit)), k + 1)
    {
      TopSetAdvances(r, k);
    }
    forall k | 0 <= k <= 32
      ensures !TopSet(REGISTER.zero, k)
    {
      ZeroHasNoTop(k);
    }
    FeedbackSetsTop(1);
  }

  /** Any two buffers of one length that differ, and only within 32 consecutive bits, have different checksums. */
  lemma DetectsBursts(x: seq<bv8>, y: seq<bv8>, start: nat)
    requires |x| == |y| && x != y
    requires DifferWithin(Bits(x), Bits(y), start, 32)
    ensures Checksum(x) != Checksum(y)
  {
    BitsInjective(x, y);
    BurstSeparatesRegister(Bits(x), Bits(y), start);
    XorInjective(BitSerial(0xffff_ffff, x), BitSerial(0xffff_ffff, y), 0xffff_ffff);
  }

  lemma BurstSeparatesRegister(a: seq<bool>, b: seq<bool>, start: nat)
    requires |a| == |b| && a != b && DifferWithin(a, b, start, 32)
    ensures Run(REGISTER, 0xffff_ffff, a) != Run(REGISTER, 0xffff_ffff, b)
  {
    RegisterClockLaws();
    TopSetLives();
    BurstSeparates(REGISTER, TopSet, 32, 0xffff_ffff, a, b, start);
  }

  lemma XorInjective(x: bv32, y: bv32, m: bv32)
    requires x != y
    ensures x ^ m != y ^ m
  {
  }

  lemma {:induction false} BitsInjective(x: seq<bv8>, y: seq<bv8>)
    requires |x| == |y| && x != y
    ensures Bits(x) != Bits(y)
  {
    var k :| 0 <= k < |x| && x[k] != y[k];
    var j := DifferingBit(x[k], y[k]);
    BitsAt(x, k, j);
    BitsAt(y, k, j);
  }

  lemma DifferingBit(a: bv8, b: bv8) returns (j: nat)
    requires a != b
    ensures j < 8 && BitAt(a, j) != BitAt(b, j)
  {
    if {
      case a & 1 != b & 1 => j := 0;
      case a & 2 != b & 2 => j := 1;
      case a & 4 != b & 4 => j := 2;
      case a & 8 != b & 8 => j := 3;
      case a & 16 != b & 16 => j := 4;
      case a & 32 != b & 32 => j := 5;
      case a & 64 != b & 64 => j := 6;
      case a & 128 != b & 128 => j := 7;
    }
  }

  /** Where each bit of each byte stands in the stream of data bits. */
  lemma {:induction false} BitsAt(buf: seq<bv8>, k: nat, j: nat)
    requires k < |buf| && j < 8
    ensures Bits(buf)[8 * k + j] == BitAt(buf[k], j)
  {
    if k > 0 {
      BitsAt(buf[1..], k - 1, j);
      assert Bits(buf)[8..] == Bits(buf[1..]);
    }
  }

  /** 32 is the best possible: this 33-bit burst, the generator itself, goes unnoticed. */
  lemma BurstOf33Undetected()
    ensures var x, y := [0, 0, 0, 0, 0], [0x41, 0x06, 0x71, 0xdb, 0x01];
            DifferWithin(Bits(x), Bits(y), 0, 33) && Checksum(x) == Checksum(y)
  {
    var x: seq<bv8>, y: seq<bv8> := [0, 0, 0, 0, 0], [0x41, 0x06, 0x71, 0xdb, 0x01];
    ZerosChecked(x);
    GeneratorChecked(y);
    forall i | 33 <= i < 40
      ensures Bits(x)[i] == Bits(y)[i]
    {
      BitsAt(x, 4, i - 32);
      BitsAt(y, 4, i - 32);
      UpperBitsOfOne(i - 32);
    }
  }

  lemma ZerosChecked(x: seq<bv8>)
    requires x == [0, 0, 0, 0, 0]
    ensures BitSerial(0xffff_ffff, x) == 0x39dd_08e2
  {
    AppendByte(x, 0, 0xffff_ffff, 0x00, 0xff, 0x2dfd_1072);
    AppendByte(x, 1, 0x2dfd_1072, 0x00, 0x72, 0xbe26_ed00);
    AppendByte(x, 2, 0xbe26_ed00, 0x00, 0x00, 0x00be_26ed);
    AppendByte(x, 3, 0x00be_26ed, 0x00, 0xed, 0xdebb_20e3);
    AppendByte(x, 4, 0xdebb_20e3, 0x00, 0xe3, 0x39dd_08e2);
    assert x[..5] == x;
  }

  lemma GeneratorChecked(y: seq<bv8>)
    requires y == [0x41, 0x06, 0x71, 0xdb, 0x01]
    ensures BitSerial(0xffff_ffff, y) == 0x39dd_08e2
  {
    GeneratorHead(y);
    AppendByte(y, 3, 0x00be_2736, 0xdb, 0xed, 0xdebb_20e2);
    AppendByte(y, 4, 0xdebb_20e2, 0x01, 0xe3, 0x39dd_08e2);
    assert y[..5] == y;
  }

  lemma GeneratorHead(y: seq<bv8>)
    requires |y| == 5 && y[0] == 0x41 && y[1] == 0x06 && y[2] == 0x71
    ensures BitSerial(0xffff_ffff, y[..3]) == 0x00be_2736
  {
    AppendByte(y, 0, 0xffff_ffff, 0x41, 0xbe, 0x2c26_6174);
    AppendByte(y, 1, 0x2c26_6174, 0x06, 0x72, 0xbe27_3671);
    AppendByte(y, 2, 0xbe27_3671, 0x71, 0x00, 0x00be_2736);
  }

  predicate Steps(r: bv32, b: bv8, i: bv8, s: bv32) {
    i == (r & 0xff) as bv8 ^ b && s == ShiftByte(i as bv32) ^ (r >> 8)
  }

  lemma AppendByte(buf: seq<bv8>, k: nat, r: bv32, b: bv8, i: bv8, s: bv32)
    requires k < |buf| && buf[k] == b && BitSerial(0xffff_ffff, buf[..k]) == r && Steps(r, b, i, s)
    ensures BitSerial(0xffff_ffff, buf[..k + 1]) == s
  {
    NextByte(0xffff_ffff, buf, k, r, b, i, s);
  }

  lemma NextByte(start: bv32, buf: seq<bv8>, k: nat, r: bv32, b: bv8, i: bv8, s: bv32)
    requires k < |buf| && buf[k] == b && BitSerial(start, buf[..k]) == r && Steps(r, b, i, s)
    ensures BitSerial(start, buf[..k + 1]) == s
  {
    ExtendByOneByte(start, buf, k);
    StepIsRun(r, b, i, s);
  }

  lemma StepIsRun(r: bv32, b: bv8, i: bv8, s: bv32)
    requires Steps(r, b, i, s)
    ensures s == Run(REGISTER, r, ByteBits(b))
  {
    EightClocks(r, b, i);
    IdleEight(i as bv32);
  }

  lemma UpperBitsOfOne(j: nat)
    requires 0 < j < 8
    ensures BitAt(0, j) == BitAt(1, j)
  {
  }

  // ---------- Which register it is ----------

  /** The check value by which this CRC is told from its relatives: that of the digits "123456789". */
  lemma CheckValue()
    ensures Checksum([0x31, 0x32, 0x33, 0x34, 0x35, 0x36, 0x37, 0x38, 0x39]) == 0xcbf4_3926
  {
    var buf: seq<bv8> := [0x31, 0x32, 0x33, 0x34, 0x35, 0x36, 0x37, 0x38, 0x39];
    FirstDigits(buf);
    AppendByte(buf, 5, 0x340a_c5e3, 0x36, 0xd5, 0xf68d_2c9e);
    AppendByte(buf, 6, 0xf68d_2c9e, 0x37, 0xa9, 0xaffc_9660);
    AppendByte(buf, 7, 0xaffc_9660, 0x38, 0x58, 0x651f_2550);
    AppendByte(buf, 8, 0x651f_2550, 0x39, 0x69, 0x340b_c6d9);
    assert buf[..9] == buf;
  }

  lemma FirstDigits(buf: seq<bv8>)
    requires |buf| == 9 && buf[0] == 0x31 && buf[1] == 0x32 && buf[2] == 0x33 && buf[3] == 0x34 && buf[4] == 0x35
    ensures BitSerial(0xffff_ffff, buf[..5]) == 0x340a_c5e3
  {
    AppendByte(buf, 0, 0xffff_ffff, 0x31, 0xce, 0x7c23_1048);
    AppendByte(buf, 1, 0x7c23_1048, 0x32, 0x7a, 0xb0ac_bb32);
    AppendByte(buf, 2, 0xb0ac_bb32, 0x33, 0x01, 0x77b7_9c2d);
    AppendByte(buf, 3, 0x77b7_9c2d, 0x34, 0x19, 0x641c_1f5c);
    AppendByte(buf, 4, 0x641c_1f5c, 0x35, 0x69, 0x340a_c5e3);
  }

  /** The four bytes of a checksum, low byte first. */
  function ChecksumBytes(c: bv32): seq<bv8> {
    [(c & 0xff) as bv8, ((c >> 8) & 0xff) as bv8, ((c >> 16) & 0xff) as bv8, (c >> 24) as bv8]
  }

  /** A buffer with its own checksum appended has the same checksum as every other such buffer. */
  lemma Residue(buf: seq<bv8>)
    ensures Checksum(buf + ChecksumBytes(Checksum(buf))) == 0x2144_df1c
  {
    AfterOwnBytes(buf, ChecksumBytes(Checksum(buf)), BitSerial(0xffff_ffff, buf), Checksum(buf));
    ComplementIs(BitSerial(0xffff_ffff, buf + ChecksumBytes(Checksum(buf))));
  }

  lemma AfterOwnBytes(buf: seq<bv8>, bytes: seq<bv8>, r: bv32, c: bv32)
    requires r == BitSerial(0xffff_ffff, buf) && c == r ^ 0xffff_ffff && bytes == ChecksumBytes(c)
    ensures BitSerial(0xffff_ffff, buf + bytes) == 0xdebb_20e3
  {
    BitSerialConcatenation(0xffff_ffff, buf, bytes);
    OwnBytes(r, c);
  }

  lemma ComplementIs(r: bv32)
    requires r == 0xdebb_20e3
    ensures r ^ 0xffff_ffff == 0x2144_df1c
  {
  }

  /** From any state, the bytes of its complement lead to the same one. */
  lemma OwnBytes(r: bv32, c: bv32)
    requires c == r ^ 0xffff_ffff
    ensures BitSerial(r, ChecksumBytes(c)) == 0xdebb_20e3
  {
    var b := ChecksumBytes(c);
    var r1, r2, r3 := 0x2d02_ef8d ^ (r >> 8), 0xbe26_12ff ^ (r >> 16), 0x00be_2612 ^ (r >> 24);
    assert b[..0] == [] && b[..4] == b;
    FirstOwnByte(r, c, r1);
    NextByte(r, b, 0, r, b[0], 0xff, r1);
    SecondOwnByte(r, c, r1, r2);
    NextByte(r, b, 1, r1, b[1], 0x72, r2);
    ThirdOwnByte(r, c, r2, r3);
    NextByte(r, b, 2, r2, b[2], 0x00, r3);
    LastOwnByte(r, c, r3);
    NextByte(r, b, 3, r3, b[3], 0xed, 0xdebb_20e3);
  }

  lemma FirstOwnByte(r: bv32, c: bv32, s: bv32)
    requires c == r ^ 0xffff_ffff && s == 0x2d02_ef8d ^ (r >> 8)
    ensures Steps(r, (c & 0xff) as bv8, 0xff, s)
  {
  }

  lemma SecondOwnByte(r: bv32, c: bv32, r1: bv32, s: bv32)
    requires c == r ^ 0xffff_ffff && r1 == 0x2d02_ef8d ^ (r >> 8) && s == 0xbe26_12ff ^ (r >> 16)
    ensures Steps(r1, ((c >> 8) & 0xff) as bv8, 0x72, s)
  {
  }

  lemma ThirdOwnByte(r: bv32, c: bv32, r2: bv32, s: bv32)
    requires c == r ^ 0xffff_ffff && r2 == 0xbe26_12ff ^ (r >> 16) && s == 0x00be_2612 ^ (r >> 24)
    ensures Steps(r2, ((c >> 16) & 0xff) as bv8, 0x00, s)
  {
  }

  lemma LastOwnByte(r: bv32, c: bv32, r3: bv32)
    requires c == r ^ 0xffff_ffff && r3 == 0x00be_2612 ^ (r >> 24)
    ensures Steps(r3, (c >> 24) as bv8, 0xed, 0xdebb_20e3)
  {
  }
}
