/**
 A test vector of section A.5 of RFC 1321: the signature of the digits "1234567890" eight times over. It
 depends on every constant of the code, on the order of the bytes, and on the padding.
 */
module Md5Vector {
  import opened Wrappers
  import opened Arithmetic
  import opened Md5Block
  import opened Md5Stream
  import opened Md5
  import opened Md5Trace

  // ---------- The two blocks ----------

  lemma BlockIs(x: seq<bv32>, s: Registers<bv32>, t: Registers<bv32>)
    requires After(x, s, 64, t)
    ensures Block(StepsOf(MD5), MD5_CODING, x, s)
         == Registers(Plus(t.a, s.a), Plus(t.b, s.b), Plus(t.c, s.c), Plus(t.d, s.d))
  {
    assert Look(0);
    BlockAdds(StepsOf(MD5), MD5_CODING, x, s, t);
    CodingAdds(t, s);
  }

  lemma BlockAdds<W>(g: Steps<W>, c: Coding<W>, x: seq<W>, s: Registers<W>, t: Registers<W>)
    requires |x| == 16 && t == Run(g, x, 0, 64, s)
    ensures Block(g, c, x, s) == AddEach(c, t, s)
  {
  }

  lemma CodingAdds(s: Registers<bv32>, t: Registers<bv32>)
    ensures AddEach(MD5_CODING, s, t)
         == Registers(Plus(s.a, t.a), Plus(s.b, t.b), Plus(s.c, t.c), Plus(s.d, t.d))
  {
  }

  lemma FirstIs()
    ensures Block(StepsOf(MD5), MD5_CODING, First(), Registers(0x67452301, 0xefcdab89, 0x98badcfe, 0x10325476))
         == Registers(0xc88d8bec, 0xa4a0dc8b, 0xe9edef99, 0xb0d18d1d)
  {
    var start := Registers(0x67452301, 0xefcdab89, 0x98badcfe, 0x10325476);
    FirstBlockRuns(start);
    BlockIs(First(), start, Registers(0x614868eb, 0xb4d33102, 0x5133129b, 0xa09f38a7));
    assert Plus(0x614868eb, 0x67452301) == 0xc88d8bec;
    assert Plus(0xb4d33102, 0xefcdab89) == 0xa4a0dc8b;
    assert Plus(0x5133129b, 0x98badcfe) == 0xe9edef99;
    assert Plus(0xa09f38a7, 0x10325476) == 0xb0d18d1d;
  }

  lemma LastIs()
    ensures Block(StepsOf(MD5), MD5_CODING, Last(), Registers(0xc88d8bec, 0xa4a0dc8b, 0xe9edef99, 0xb0d18d1d))
         == Registers(0xa2f4ed57, 0x55c9e32b, 0x2eda49ac, 0x7ab60721)
  {
    var start := Registers(0xc88d8bec, 0xa4a0dc8b, 0xe9edef99, 0xb0d18d1d);
    LastBlockRuns(start);
    BlockIs(Last(), start, Registers(0xda67616b, 0xb12906a0, 0x44ec5a13, 0xc9e47a04));
    assert Plus(0xda67616b, 0xc88d8bec) == 0xa2f4ed57;
    assert Plus(0xb12906a0, 0xa4a0dc8b) == 0x55c9e32b;
    assert Plus(0x44ec5a13, 0xe9edef99) == 0x2eda49ac;
    assert Plus(0xc9e47a04, 0xb0d18d1d) == 0x7ab60721;
  }

  // ---------- The padded message ----------

  /** The digits "1234567890" eight times. */
  function Message(): (m: seq<Byte>)
    ensures |m| == 80
  {
    seq<Byte>(80, i requires 0 <= i < 80 => Digit(i))
  }

  /** The character of digit number i. */
  function Digit(i: nat): Byte {
    if i % 10 == 9 then 48 else 49 + i % 10
  }

  lemma PaddedIs()
    ensures Pad(Message()) == Message() + ([0x80] + Fill(39, 0) + [0x80, 2, 0, 0, 0, 0, 0, 0])
    ensures |Pad(Message())| == 128
  {
    assert PadLength(80) == 40;
    LengthOfMessage();
  }

  lemma LengthOfMessage()
    ensures LengthBytes(80) == [0x80, 2, 0, 0, 0, 0, 0, 0]
  {
    Zeros(6);
    LowByte(640, 8);
    LowByte(2, 7);
    assert [0x80] + ([2] + Fill(6, 0)) == [0x80, 2, 0, 0, 0, 0, 0, 0];
  }

  lemma LowByte(n: nat, bytes: nat)
    requires bytes > 0
    ensures LittleEndian(n, bytes) == [n % 256] + LittleEndian(n / 256, bytes - 1)
  {
  }

  lemma {:induction false} Zeros(bytes: nat)
    ensures LittleEndian(0, bytes) == Fill(bytes, 0)
  {
    if bytes > 0 {
      Zeros(bytes - 1);
      LowByte(0, bytes);
    }
  }

  lemma FourBytes(b: seq<Byte>)
    requires |b| == 4
    ensures Value(b) == b[0] as nat + 0x100 * b[1] as nat + 0x1_0000 * b[2] as nat + 0x100_0000 * b[3] as nat
  {
    ValueFrom(b, 1);
    ValueFrom(b, 2);
    ValueFrom(b, 3);
    assert b[4..] == [];
  }

  lemma ValueFrom(b: seq<Byte>, k: nat)
    requires k < |b|
    ensures Value(b[k..]) == b[k] as nat + 0x100 * Value(b[k + 1..])
  {
    assert b[k..][1..] == b[k + 1..];
  }

  /** Word k of the message. */
  function MessageWord(k: nat): nat {
    if k % 5 == 0 then 0x3433_3231 else if k % 5 == 1 then 0x3837_3635 else if k % 5 == 2 then 0x3231_3039
    else if k % 5 == 3 then 0x3635_3433 else 0x3039_3837
  }

  lemma WordOfDigits(k: nat)
    requires k < 20
    ensures |Pad(Message())| == 128 && Value(Pad(Message())[4 * k..4 * k + 4]) == MessageWord(k)
  {
    PaddedIs();
    FourBytes(Pad(Message())[4 * k..4 * k + 4]);
    DigitsOfWord(k, k / 5, k % 5);
  }

  lemma DigitsOfWord(k: nat, q: nat, r: nat)
    requires k == 5 * q + r && r < 5
    ensures Digit(4 * k) as nat + 0x100 * Digit(4 * k + 1) as nat + 0x1_0000 * Digit(4 * k + 2) as nat
            + 0x100_0000 * Digit(4 * k + 3) as nat == MessageWord(k)
  {
    SameDigit(2 * q, 4 * r);
    SameDigit(2 * q, 4 * r + 1);
    SameDigit(2 * q, 4 * r + 2);
    SameDigit(2 * q, 4 * r + 3);
    SameWord(k, q, r);
    FirstDigits(r);
  }

  lemma SameWord(k: nat, q: nat, r: nat)
    requires k == 5 * q + r && r < 5
    ensures MessageWord(k) == MessageWord(r)
  {
    assert k % 5 == r % 5;
  }

  lemma FirstDigits(r: nat)
    requires r < 5
    ensures Digit(4 * r) as nat + 0x100 * Digit(4 * r + 1) as nat + 0x1_0000 * Digit(4 * r + 2) as nat
            + 0x100_0000 * Digit(4 * r + 3) as nat == MessageWord(r)
  {
    if {
      case r == 0 =>
      case r == 1 =>
      case r == 2 =>
      case r == 3 =>
      case r == 4 =>
    }
  }

  lemma SameDigit(tens: nat, i: nat)
    ensures Digit(10 * tens + i) == Digit(i)
  {
  }

  lemma WordOfPadding(k: nat)
    requires 20 <= k < 32
    ensures |Pad(Message())| == 128
    ensures Value(Pad(Message())[4 * k..4 * k + 4]) == if k == 20 then 0x80 else if k == 30 then 0x280 else 0
  {
    PaddedIs();
    FourBytes(Pad(Message())[4 * k..4 * k + 4]);
  }

  lemma FirstWords()
    ensures |Pad(Message())| == 128 && WordsOf(MD5_CODING, Pad(Message())[..64]) == First()
  {
    PaddedIs();
    var p := Pad(Message());
    forall k | 0 <= k < 16
      ensures WordsOf(MD5_CODING, p[..64])[k] == First()[k]
    {
      WordOfDigits(k);
      assert p[..64][4 * k..4 * k + 4] == p[4 * k..4 * k + 4];
      FirstWord(k);
    }
  }

  lemma FirstWord(k: nat)
    requires k < 16
    ensures First()[k] == WordOf(MessageWord(k))
  {
    BitsOfWord(k);
    FirstBits(k);
  }

  function MessageBits(k: nat): bv32 {
    if k % 5 == 0 then 0x3433_3231 else if k % 5 == 1 then 0x3837_3635 else if k % 5 == 2 then 0x3231_3039
    else if k % 5 == 3 then 0x3635_3433 else 0x3039_3837
  }

  lemma BitsOfWord(k: nat)
    ensures WordOf(MessageWord(k)) == MessageBits(k)
  {
    WordsOfNumbers();
  }

  lemma FirstBits(k: nat)
    requires k < 16
    ensures First()[k] == MessageBits(k)
  {
    if {
      case k == 0 => case k == 1 => case k == 2 => case k == 3 =>
      case k == 4 => case k == 5 => case k == 6 => case k == 7 =>
      case k == 8 => case k == 9 => case k == 10 => case k == 11 =>
      case k == 12 => case k == 13 => case k == 14 => case k == 15 =>
    }
  }

  lemma WordsOfNumbers()
    ensures WordOf(0x3433_3231) == 0x3433_3231 && WordOf(0x3837_3635) == 0x3837_3635
    ensures WordOf(0x3231_3039) == 0x3231_3039 && WordOf(0x3635_3433) == 0x3635_3433
    ensures WordOf(0x3039_3837) == 0x3039_3837
    ensures WordOf(0x80) == 0x80 && WordOf(0x280) == 0x280 && WordOf(0) == 0
  {
  }

  lemma LastWords()
    ensures |Pad(Message())| == 128 && WordsOf(MD5_CODING, Pad(Message())[64..]) == Last()
  {
    PaddedIs();
    forall k | 0 <= k < 16
      ensures WordsOf(MD5_CODING, Pad(Message())[64..])[k] == Last()[k]
    {
      SecondHalf(Pad(Message()), k);
      LastValue(k);
      LastWord(k);
    }
  }

  lemma SecondHalf(p: seq<Byte>, k: nat)
    requires |p| == 128 && k < 16
    ensures WordsOf(MD5_CODING, p[64..])[k] == WordOf(Value(p[4 * (k + 16)..4 * (k + 16) + 4]))
  {
    assert p[64..][4 * k..4 * k + 4] == p[4 * (k + 16)..4 * (k + 16) + 4];
  }

  /** Word k of the second block. */
  function LastNumber(k: nat): nat {
    if k < 4 then MessageWord(k + 16) else if k == 4 then 0x80 else if k == 14 then 0x280 else 0
  }

  lemma LastValue(k: nat)
    requires k < 16
    ensures |Pad(Message())| == 128
    ensures Value(Pad(Message())[4 * (k + 16)..4 * (k + 16) + 4]) == LastNumber(k)
  {
    if k < 4 {
      WordOfDigits(k + 16);
    } else {
      WordOfPadding(k + 16);
    }
  }

  lemma LastWord(k: nat)
    requires k < 16
    ensures Last()[k] == WordOf(LastNumber(k))
  {
    LastBitsOfWord(k);
    LastBitsAre(k);
  }

  function LastBits(k: nat): bv32 {
    if k < 4 then MessageBits(k + 16) else if k == 4 then 0x80 else if k == 14 then 0x280 else 0
  }

  lemma LastBitsOfWord(k: nat)
    ensures WordOf(LastNumber(k)) == LastBits(k)
  {
    WordsOfNumbers();
    BitsOfWord(k + 16);
  }

  lemma LastBitsAre(k: nat)
    requires k < 16
    ensures Last()[k] == LastBits(k)
  {
    if {
      case k == 0 => case k == 1 => case k == 2 => case k == 3 =>
      case k == 4 => case k == 5 => case k == 6 => case k == 7 =>
      case k == 8 => case k == 9 => case k == 10 => case k == 11 =>
      case k == 12 => case k == 13 => case k == 14 => case k == 15 =>
    }
  }

  lemma BlocksOfMessage()
    ensures |Pad(Message())| == 128 && Blocks(Pad(Message())) == [Pad(Message())[..64], Pad(Message())[64..]]
  {
    PaddedIs();
    TwoBlocks(Pad(Message()));
  }

  lemma TwoBlocks(p: seq<Byte>)
    requires |p| == 128
    ensures Blocks(p) == [p[..64], p[64..]]
  {
    assert p[64..][..64] == p[64..];
    assert Blocks(p[64..]) == [p[64..]] + Blocks(p[64..][64..]);
  }

  // ---------- The signature ----------

  lemma Chain()
    ensures Chained(Compress(StepsOf(MD5), MD5_CODING), Initial(MD5_CODING), Blocks(Pad(Message())))
         == Registers(0xa2f4ed57, 0x55c9e32b, 0x2eda49ac, 0x7ab60721)
  {
    BlocksOfMessage();
    var p := Pad(Message());
    ChainedTwo(Compress(StepsOf(MD5), MD5_CODING), Initial(MD5_CODING), p[..64], p[64..]);
    FirstWords();
    LastWords();
    InitialIs();
    FirstIs();
    LastIs();
  }

  lemma InitialIs()
    ensures Initial(MD5_CODING) == Registers(0x67452301, 0xefcdab89, 0x98badcfe, 0x10325476)
  {
  }

  lemma ChainedTwo<S>(compress: (S, seq<Byte>) -> S, start: S, x: seq<Byte>, y: seq<Byte>)
    ensures Chained(compress, start, [x, y]) == compress(compress(start, x), y)
  {
    assert [x, y][..1] == [x] && [x][..0] == [];
    assert Chained(compress, start, [x]) == compress(start, x);
  }

  lemma LowFirst(n: nat, b0: Byte, b1: Byte, b2: Byte, b3: Byte)
    requires n == b0 as nat + 0x100 * (b1 as nat + 0x100 * (b2 as nat + 0x100 * b3 as nat))
    ensures LittleEndian(n, 4) == [b0, b1, b2, b3]
  {
    LowByteOf(n, b0, b1 as nat + 0x100 * (b2 as nat + 0x100 * b3 as nat), 4);
    LowByteOf(b1 as nat + 0x100 * (b2 as nat + 0x100 * b3 as nat), b1, b2 as nat + 0x100 * b3 as nat, 3);
    LowByteOf(b2 as nat + 0x100 * b3 as nat, b2, b3 as nat, 2);
    LowByteOf(b3 as nat, b3, 0, 1);
  }

  lemma LowByteOf(n: nat, low: Byte, rest: nat, bytes: nat)
    requires bytes > 0 && n == low as nat + 0x100 * rest
    ensures LittleEndian(n, bytes) == [low] + LittleEndian(rest, bytes - 1)
  {
    LowByte(n, bytes);
    Remainder(n, 256, rest, low as nat);
  }

  lemma RegistersAsBytes()
    ensures Signature(MD5_CODING, Registers(0xa2f4ed57, 0x55c9e32b, 0x2eda49ac, 0x7ab60721))
         == [0x57, 0xed, 0xf4, 0xa2] + [0x2b, 0xe3, 0xc9, 0x55] + [0xac, 0x49, 0xda, 0x2e] + [0x21, 0x07, 0xb6, 0x7a]
  {
    ValuesAre();
    LowFirst(0xa2f4ed57, 0x57, 0xed, 0xf4, 0xa2);
    LowFirst(0x55c9e32b, 0x2b, 0xe3, 0xc9, 0x55);
    LowFirst(0x2eda49ac, 0xac, 0x49, 0xda, 0x2e);
    LowFirst(0x7ab60721, 0x21, 0x07, 0xb6, 0x7a);
  }

  lemma ValuesAre()
    ensures MD5_CODING.value(0xa2f4ed57) == 0xa2f4ed57
    ensures MD5_CODING.value(0x55c9e32b) == 0x55c9e32b
    ensures MD5_CODING.value(0x2eda49ac) == 0x2eda49ac
    ensures MD5_CODING.value(0x7ab60721) == 0x7ab60721
  {
  }

  /** The last but one of the test vectors: 57edf4a22be3c955ac49da2e2107b67a. */
  lemma SignatureOfDigits()
    ensures Digest(StepsOf(MD5), MD5_CODING, Message())
         == [0x57, 0xed, 0xf4, 0xa2] + [0x2b, 0xe3, 0xc9, 0x55] + [0xac, 0x49, 0xda, 0x2e] + [0x21, 0x07, 0xb6, 0x7a]
  {
    Chain();
    RegistersAsBytes();
  }
}
