/**
 The register kernels of src/bitsstream/Endianness.cpp, on the bytes they read and write.

 A host reads bytes into a register low byte first (little-endian) or high byte first. Every kernel,
 whether it uses the swap instruction of the processor, 64-bit masks or 32-bit masks, is proved to
 write its bytes with the elements swapped. Where a kernel writes its register in pieces, the code
 picks the order of the pieces by a macro; the pieces land in the right places exactly when the macro
 says what the host is.
 */
module Lanes {
  import opened Wrappers
  import opened Elements

  // ---------- Registers and bytes ----------

  /** 2 bytes as a number, low byte first. */
  function Word2(b: seq<bv8>): bv16
    requires |b| == 2
  {
    (b[0] as bv16) | ((b[1] as bv16) << 8)
  }

  function Bytes2(x: bv16): (b: seq<bv8>)
    ensures |b| == 2
  {
    [(x & 0xff) as bv8, ((x >> 8) & 0xff) as bv8]
  }

  lemma BytesOfWord2(b: seq<bv8>)
    requires |b| == 2
    ensures Bytes2(Word2(b)) == b
  {
  }

  /** What the host reads from memory, and what it writes. */
  function Load2(b: seq<bv8>, little: bool): bv16
    requires |b| == 2
  {
    Word2(if little then b else Reversed(b))
  }

  function Store2(x: bv16, little: bool): (b: seq<bv8>)
    ensures |b| == 2
  {
    if little then Bytes2(x) else Reversed(Bytes2(x))
  }

  /** 4 bytes as a number, low byte first. */
  function Word4(b: seq<bv8>): bv32
    requires |b| == 4
  {
    (b[0] as bv32) | ((b[1] as bv32) << 8) | ((b[2] as bv32) << 16) | ((b[3] as bv32) << 24)
  }

  function Bytes4(x: bv32): (b: seq<bv8>)
    ensures |b| == 4
  {
    [(x & 0xff) as bv8, ((x >> 8) & 0xff) as bv8, ((x >> 16) & 0xff) as bv8, ((x >> 24) & 0xff) as bv8]
  }

  lemma BytesOfWord4(b: seq<bv8>)
    requires |b| == 4
    ensures Bytes4(Word4(b)) == b
  {
  }

  /** What the host reads from memory, and what it writes. */
  function Load4(b: seq<bv8>, little: bool): bv32
    requires |b| == 4
  {
    Word4(if little then b else Reversed(b))
  }

  function Store4(x: bv32, little: bool): (b: seq<bv8>)
    ensures |b| == 4
  {
    if little then Bytes4(x) else Reversed(Bytes4(x))
  }

  /** 8 bytes as a number, low byte first. */
  function Word8(b: seq<bv8>): bv64
    requires |b| == 8
  {
    (b[0] as bv64) | ((b[1] as bv64) << 8) | ((b[2] as bv64) << 16) | ((b[3] as bv64) << 24)
    | ((b[4] as bv64) << 32) | ((b[5] as bv64) << 40) | ((b[6] as bv64) << 48) | ((b[7] as bv64) << 56)
  }

  function Bytes8(x: bv64): (b: seq<bv8>)
    ensures |b| == 8
  {
    [(x & 0xff) as bv8, ((x >> 8) & 0xff) as bv8, ((x >> 16) & 0xff) as bv8, ((x >> 24) & 0xff) as bv8,
        ((x >> 32) & 0xff) as bv8, ((x >> 40) & 0xff) as bv8, ((x >> 48) & 0xff) as bv8, ((x >> 56) & 0xff) as bv8]
  }

  lemma BytesOfWord8(b: seq<bv8>)
    requires |b| == 8
    ensures Bytes8(Word8(b)) == b
  {
  }

  /** What the host reads from memory, and what it writes. */
  function Load8(b: seq<bv8>, little: bool): bv64
    requires |b| == 8
  {
    Word8(if little then b else Reversed(b))
  }

  function Store8(x: bv64, little: bool): (b: seq<bv8>)
    ensures |b| == 8
  {
    if little then Bytes8(x) else Reversed(Bytes8(x))
  }

  // ---------- Instructions ----------

  /** The bswap instruction on 32 and on 64 bits. */
  function Bswap4(x: bv32): bv32 { Word4(Reversed(Bytes4(x))) }

  function Bswap8(x: bv64): bv64 { Word8(Reversed(Bytes8(x))) }

  /** The rol instruction by half a register. */
  function Rol16(x: bv32): bv32 { (x << 16) | (x >> 16) }

  function Rol32(x: bv64): bv64 { (x << 32) | (x >> 32) }

  // ---------- The mask expressions ----------

  function Rotated2(x: bv16): bv16 { (x << 8) | (x >> 8) }

  function Masked4(x: bv32): bv32 {
    (x << 24) | ((x & 0xff00) << 8) | ((x & 0xff0000) >> 8) | (x >> 24)
  }

  /** Two lanes of two bytes. */
  function Lanes2In4(a: bv32): bv32 {
    ((a & 0x00ff00ff) << 8) | ((a & 0xff00ff00) >> 8)
  }

  /** Four lanes of two bytes. */
  function Lanes2In8(a: bv64): bv64 {
    ((a & 0x00ff00ff00ff00ff) << 8) | ((a & 0xff00ff00ff00ff00) >> 8)
  }

  /** Two lanes of four bytes. */
  function Lanes4In8(x: bv64): bv64 {
    ((x & 0x000000ff000000ff) << 24) | ((x & 0x0000ff000000ff00) << 8)
    | ((x & 0x00ff000000ff0000) >> 8) | ((x & 0xff000000ff000000) >> 24)
  }

  // What the expressions do to the bytes of a register.

  lemma Rotated2Bytes(b: seq<bv8>)
    requires |b| == 2
    ensures Rotated2(Word2(b)) == Word2([b[1], b[0]])
  {
  }

  lemma Masked4Bytes(b: seq<bv8>)
    requires |b| == 4
    ensures Masked4(Word4(b)) == Word4([b[3], b[2], b[1], b[0]])
  {
  }

  lemma Lanes2In4Bytes(b: seq<bv8>)
    requires |b| == 4
    ensures Lanes2In4(Word4(b)) == Word4([b[1], b[0], b[3], b[2]])
  {
  }

  lemma Lanes2In8Bytes(b: seq<bv8>)
    requires |b| == 8
    ensures Lanes2In8(Word8(b)) == Word8([b[1], b[0], b[3], b[2], b[5], b[4], b[7], b[6]])
  {
  }

  lemma Lanes4In8Bytes(b: seq<bv8>)
    requires |b| == 8
    ensures Lanes4In8(Word8(b)) == Word8([b[3], b[2], b[1], b[0], b[7], b[6], b[5], b[4]])
  {
  }

  lemma Rol16Bytes(b: seq<bv8>)
    requires |b| == 4
    ensures Rol16(Word4(b)) == Word4([b[2], b[3], b[0], b[1]])
  {
  }

  lemma Rol32Bytes(b: seq<bv8>)
    requires |b| == 8
    ensures Rol32(Word8(b)) == Word8([b[4], b[5], b[6], b[7], b[0], b[1], b[2], b[3]])
  {
  }

  /** Each mask expression and the instructions it replaces are the same function of the register. */
  lemma KernelsAgree4(x: bv32)
    ensures Masked4(x) == Bswap4(x)
    ensures Lanes2In4(x) == Rol16(Bswap4(x))
  {
    var b := Bytes4(x);
    WordOfBytes4(x);
    Masked4Bytes(b);
    Lanes2In4Bytes(b);
    ReversedFour(b);
    Rol16Bytes(Reversed(b));
  }

  lemma KernelsAgree8(x: bv64)
    ensures Lanes4In8(x) == Rol32(Bswap8(x))
    ensures Rol32(Lanes4In8(x)) == Bswap8(x)
  {
    var b := Bytes8(x);
    WordOfBytes8(x);
    Lanes4In8Bytes(b);
    ReversedEight(b);
    Rol32Bytes(Reversed(b));
    Rol32Bytes([b[3], b[2], b[1], b[0], b[7], b[6], b[5], b[4]]);
  }

  lemma WordOfBytes2(x: bv16)
    ensures Word2(Bytes2(x)) == x
  {
  }

  lemma WordOfBytes4(x: bv32)
    ensures Word4(Bytes4(x)) == x
  {
  }

  lemma WordOfBytes8(x: bv64)
    ensures Word8(Bytes8(x)) == x
  {
  }

  lemma ReversedFour(b: seq<bv8>)
    requires |b| == 4
    ensures Reversed(b) == [b[3], b[2], b[1], b[0]]
  {
  }

  lemma ReversedEight(b: seq<bv8>)
    requires |b| == 8
    ensures Reversed(b) == [b[7], b[6], b[5], b[4], b[3], b[2], b[1], b[0]]
  {
  }

  // ---------- Registers in use ----------

  // x holds the bytes b. The kernels keep these facts folded, so that no proof about the order of
  // bytes has to look into the bits; Look(0) opens one.

  ghost predicate Is2(x: bv16, b: seq<bv8>) {
    |b| == 2 && forall key {:trigger Look(key)} :: Look(key) ==> x == Word2(b)
  }

  ghost predicate Is4(x: bv32, b: seq<bv8>) {
    |b| == 4 && forall key {:trigger Look(key)} :: Look(key) ==> x == Word4(b)
  }

  ghost predicate Is8(x: bv64, b: seq<bv8>) {
    |b| == 8 && forall key {:trigger Look(key)} :: Look(key) ==> x == Word8(b)
  }

  method Read2(b: seq<bv8>, little: bool) returns (x: bv16, ghost c: seq<bv8>)
    requires |b| == 2
    ensures Is2(x, c) && c == (if little then b else Reversed(b))
  {
    x := Load2(b, little);
    c := if little then b else Reversed(b);
  }

  method Write2(x: bv16, little: bool, ghost c: seq<bv8>) returns (w: seq<bv8>)
    requires Is2(x, c)
    ensures w == if little then c else Reversed(c)
  {
    assert Look(0);
    BytesOfWord2(c);
    w := Store2(x, little);
  }

  method Read4(b: seq<bv8>, little: bool) returns (x: bv32, ghost c: seq<bv8>)
    requires |b| == 4
    ensures Is4(x, c) && c == (if little then b else Reversed(b))
  {
    x := Load4(b, little);
    c := if little then b else Reversed(b);
  }

  method Write4(x: bv32, little: bool, ghost c: seq<bv8>) returns (w: seq<bv8>)
    requires Is4(x, c)
    ensures w == if little then c else Reversed(c)
  {
    assert Look(0);
    BytesOfWord4(c);
    w := Store4(x, little);
  }

  method Read8(b: seq<bv8>, little: bool) returns (x: bv64, ghost c: seq<bv8>)
    requires |b| == 8
    ensures Is8(x, c) && c == (if little then b else Reversed(b))
  {
    x := Load8(b, little);
    c := if little then b else Reversed(b);
  }

  method Write8(x: bv64, little: bool, ghost c: seq<bv8>) returns (w: seq<bv8>)
    requires Is8(x, c)
    ensures w == if little then c else Reversed(c)
  {
    assert Look(0);
    BytesOfWord8(c);
    w := Store8(x, little);
  }

  method Rotate2(x: bv16, ghost b: seq<bv8>) returns (y: bv16)
    requires Is2(x, b)
    ensures Is2(y, [b[1], b[0]])
  {
    assert Look(0);
    Rotated2Bytes(b);
    y := Rotated2(x);
  }

  method Mask4(x: bv32, ghost b: seq<bv8>) returns (y: bv32)
    requires Is4(x, b)
    ensures Is4(y, [b[3], b[2], b[1], b[0]])
  {
    assert Look(0);
    Masked4Bytes(b);
    y := Masked4(x);
  }

  method Bswap32(x: bv32, ghost b: seq<bv8>) returns (y: bv32)
    requires Is4(x, b)
    ensures Is4(y, [b[3], b[2], b[1], b[0]])
  {
    assert Look(0);
    BytesOfWord4(b);
    ReversedFour(b);
    y := Bswap4(x);
  }

  method RolBy16(x: bv32, ghost b: seq<bv8>) returns (y: bv32)
    requires Is4(x, b)
    ensures Is4(y, [b[2], b[3], b[0], b[1]])
  {
    assert Look(0);
    Rol16Bytes(b);
    y := Rol16(x);
  }

  method Mask2In4(x: bv32, ghost b: seq<bv8>) returns (y: bv32)
    requires Is4(x, b)
    ensures Is4(y, [b[1], b[0], b[3], b[2]])
  {
    assert Look(0);
    Lanes2In4Bytes(b);
    y := Lanes2In4(x);
  }

  method Mask2In8(x: bv64, ghost b: seq<bv8>) returns (y: bv64)
    requires Is8(x, b)
    ensures Is8(y, [b[1], b[0], b[3], b[2], b[5], b[4], b[7], b[6]])
  {
    assert Look(0);
    Lanes2In8Bytes(b);
    y := Lanes2In8(x);
  }

  method Mask4In8(x: bv64, ghost b: seq<bv8>) returns (y: bv64)
    requires Is8(x, b)
    ensures Is8(y, [b[3], b[2], b[1], b[0], b[7], b[6], b[5], b[4]])
  {
    assert Look(0);
    Lanes4In8Bytes(b);
    y := Lanes4In8(x);
  }

  method Bswap64(x: bv64, ghost b: seq<bv8>) returns (y: bv64)
    requires Is8(x, b)
    ensures Is8(y, [b[7], b[6], b[5], b[4], b[3], b[2], b[1], b[0]])
  {
    assert Look(0);
    BytesOfWord8(b);
    ReversedEight(b);
    y := Bswap8(x);
  }

  method RolBy32(x: bv64, ghost b: seq<bv8>) returns (y: bv64)
    requires Is8(x, b)
    ensures Is8(y, [b[4], b[5], b[6], b[7], b[0], b[1], b[2], b[3]])
  {
    assert Look(0);
    Rol32Bytes(b);
    y := Rol32(x);
  }

  // Pieces, named by the number of their lowest bit.

  method Low16Of4(x: bv32, ghost c: seq<bv8>) returns (p: bv16)
    requires Is4(x, c)
    ensures Is2(p, [c[0], c[1]])
  {
    assert Look(0);
    Low16Of4Piece(c);
    p := (x & 0xffff) as bv16;
  }

  lemma Low16Of4Piece(c: seq<bv8>)
    requires |c| == 4
    ensures (Word4(c) & 0xffff) as bv16 == Word2([c[0], c[1]])
  {
  }

  method High16Of4(x: bv32, ghost c: seq<bv8>) returns (p: bv16)
    requires Is4(x, c)
    ensures Is2(p, [c[2], c[3]])
  {
    assert Look(0);
    High16Of4Piece(c);
    p := (x >> 16) as bv16;
  }

  lemma High16Of4Piece(c: seq<bv8>)
    requires |c| == 4
    ensures (Word4(c) >> 16) as bv16 == Word2([c[2], c[3]])
  {
  }

  method Low32Of8(x: bv64, ghost c: seq<bv8>) returns (p: bv32)
    requires Is8(x, c)
    ensures Is4(p, [c[0], c[1], c[2], c[3]])
  {
    assert Look(0);
    Low32Of8Piece(c);
    p := (x & 0xffff_ffff) as bv32;
  }

  lemma Low32Of8Piece(c: seq<bv8>)
    requires |c| == 8
    ensures (Word8(c) & 0xffff_ffff) as bv32 == Word4([c[0], c[1], c[2], c[3]])
  {
  }

  method High32Of8(x: bv64, ghost c: seq<bv8>) returns (p: bv32)
    requires Is8(x, c)
    ensures Is4(p, [c[4], c[5], c[6], c[7]])
  {
    assert Look(0);
    High32Of8Piece(c);
    p := (x >> 32) as bv32;
  }

  lemma High32Of8Piece(c: seq<bv8>)
    requires |c| == 8
    ensures (Word8(c) >> 32) as bv32 == Word4([c[4], c[5], c[6], c[7]])
  {
  }

  method At0Of8(x: bv64, ghost c: seq<bv8>) returns (p: bv16)
    requires Is8(x, c)
    ensures Is2(p, [c[0], c[1]])
  {
    assert Look(0);
    At0Of8Piece(c);
    p := (x & 0xffff) as bv16;
  }

  lemma At0Of8Piece(c: seq<bv8>)
    requires |c| == 8
    ensures (Word8(c) & 0xffff) as bv16 == Word2([c[0], c[1]])
  {
  }

  method At16Of8(x: bv64, ghost c: seq<bv8>) returns (p: bv16)
    requires Is8(x, c)
    ensures Is2(p, [c[2], c[3]])
  {
    assert Look(0);
    At16Of8Piece(c);
    p := ((x >> 16) & 0xffff) as bv16;
  }

  lemma At16Of8Piece(c: seq<bv8>)
    requires |c| == 8
    ensures ((Word8(c) >> 16) & 0xffff) as bv16 == Word2([c[2], c[3]])
  {
  }

  method At32Of8(x: bv64, ghost c: seq<bv8>) returns (p: bv16)
    requires Is8(x, c)
    ensures Is2(p, [c[4], c[5]])
  {
    assert Look(0);
    At32Of8Piece(c);
    p := ((x >> 32) & 0xffff) as bv16;
  }

  lemma At32Of8Piece(c: seq<bv8>)
    requires |c| == 8
    ensures ((Word8(c) >> 32) & 0xffff) as bv16 == Word2([c[4], c[5]])
  {
  }

  method At48Of8(x: bv64, ghost c: seq<bv8>) returns (p: bv16)
    requires Is8(x, c)
    ensures Is2(p, [c[6], c[7]])
  {
    assert Look(0);
    At48Of8Piece(c);
    p := (x >> 48) as bv16;
  }

  lemma At48Of8Piece(c: seq<bv8>)
    requires |c| == 8
    ensures (Word8(c) >> 48) as bv16 == Word2([c[6], c[7]])
  {
  }
}
