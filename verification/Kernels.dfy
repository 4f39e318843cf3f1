/**
 The bodies of the unrolled loops of `swap_2_array` and `swap_4_array`: one chunk is read into
 registers, swapped there, and written whole or, when the target is misaligned, in pieces. Each is
 proved to write the chunk with its elements swapped; when the pieces go out in the wrong order, it
 writes the chunk with longer elements swapped instead.
 */
module Kernels {
  import opened Elements
  import opened Lanes

  lemma TwosIn4(b: seq<bv8>)
    requires |b| == 4
    ensures Swapped(b, 2) == [b[1], b[0], b[3], b[2]]
  {
    var rest := b[2..];
    assert Swapped(rest, 2) == Reversed(rest[..2]) + Swapped(rest[2..], 2);
  }

  lemma TwosIn8(b: seq<bv8>)
    requires |b| == 8
    ensures Swapped(b, 2) == [b[1], b[0], b[3], b[2], b[5], b[4], b[7], b[6]]
  {
    TwosIn4(b[..4]);
    TwosIn4(b[4..]);
    assert b == b[..4] + b[4..];
    CountsLength(b[..4], 2, 2);
    SwappedConcat(b[..4], b[4..], 2, 2);
  }

  lemma OneFour(b: seq<bv8>)
    requires |b| == 4
    ensures Swapped(b, 4) == [b[3], b[2], b[1], b[0]]
  {
    OneElement(b);
    ReversedFour(b);
  }

  lemma FoursIn8(b: seq<bv8>)
    requires |b| == 8
    ensures Swapped(b, 4) == [b[3], b[2], b[1], b[0], b[7], b[6], b[5], b[4]]
  {
    var rest := b[4..];
    assert Swapped(rest, 4) == Reversed(rest[..4]) + Swapped(rest[4..], 4);
  }

  lemma OneEight(b: seq<bv8>)
    requires |b| == 8
    ensures Swapped(b, 8) == [b[7], b[6], b[5], b[4], b[3], b[2], b[1], b[0]]
  {
    OneElement(b);
    ReversedEight(b);
  }

  // ---------- Chunks of swap_2_array ----------

  /** bswap and rol, on an x86 host; the pieces are written in the order of a little-endian host. */
  method Chunk2Asm(b: seq<bv8>, aligned: bool) returns (w: seq<bv8>)
    requires |b| == 8
    ensures w == Swapped(b, 2)
  {
    var first := Half2Asm(b[..4], aligned);
    var second := Half2Asm(b[4..], aligned);
    w := first + second;
    assert b == b[..4] + b[4..];
    CountsLength(b[..4], 2, 2);
    SwappedConcat(b[..4], b[4..], 2, 2);
  }

  method Half2Asm(b: seq<bv8>, aligned: bool) returns (w: seq<bv8>)
    requires |b| == 4
    ensures w == Swapped(b, 2)
  {
    TwosIn4(b);
    var a, read := Read4(b, true);
    ghost var c := [b[3], b[2], b[1], b[0]];
    a := Bswap32(a, read);
    if aligned {
      a := RolBy16(a, c);
      w := Write4(a, true, [b[1], b[0], b[3], b[2]]);
    } else {
      var low := Low16Of4(a, c);
      var atTwo := Write2(low, true, [b[3], b[2]]);
      var high := High16Of4(a, c);
      var atZero := Write2(high, true, [b[1], b[0]]);
      w := atZero + atTwo;
    }
  }

  method Chunk2Masks64(b: seq<bv8>, aligned: bool, little: bool, macro: bool) returns (w: seq<bv8>)
    requires |b| == 8
    ensures w == Swapped(b, if aligned || macro == little then 2 else 8)
  {
    TwosIn8(b);
    OneEight(b);
    var a, read := Read8(b, little);
    a := Mask2In8(a, read);
    ghost var c := [read[1], read[0], read[3], read[2], read[5], read[4], read[7], read[6]];
    if aligned {
      w := Write8(a, little, c);
    } else {
      var b1 := At48Of8(a, c);
      var b2 := At32Of8(a, c);
      var b3 := At16Of8(a, c);
      var b4 := At0Of8(a, c);
      var w1 := Write2(b1, little, [c[6], c[7]]);
      var w2 := Write2(b2, little, [c[4], c[5]]);
      var w3 := Write2(b3, little, [c[2], c[3]]);
      var w4 := Write2(b4, little, [c[0], c[1]]);
      w := if macro then w4 + w3 + w2 + w1 else w1 + w2 + w3 + w4;
    }
  }

  method Chunk2Masks32(b: seq<bv8>, aligned: bool, little: bool, macro: bool) returns (w: seq<bv8>)
    requires |b| == 8
    ensures w == Swapped(b, if aligned || macro == little then 2 else 4)
  {
    var first := Half2Masks32(b[..4], aligned, little, macro);
    var second := Half2Masks32(b[4..], aligned, little, macro);
    w := first + second;
    assert b == b[..4] + b[4..];
    CountsLength(b[..4], 2, 2);
    SwappedConcat(b[..4], b[4..], 2, 2);
    CountsLength(b[..4], 4, 1);
    SwappedConcat(b[..4], b[4..], 4, 1);
  }

  method Half2Masks32(b: seq<bv8>, aligned: bool, little: bool, macro: bool) returns (w: seq<bv8>)
    requires |b| == 4
    ensures w == Swapped(b, if aligned || macro == little then 2 else 4)
  {
    TwosIn4(b);
    OneFour(b);
    var a, read := Read4(b, little);
    a := Mask2In4(a, read);
    ghost var c := [read[1], read[0], read[3], read[2]];
    if aligned {
      w := Write4(a, little, c);
    } else {
      var c1 := High16Of4(a, c);
      var c2 := Low16Of4(a, c);
      var w1 := Write2(c1, little, [c[2], c[3]]);
      var w2 := Write2(c2, little, [c[0], c[1]]);
      w := if macro then w2 + w1 else w1 + w2;
    }
  }

  // ---------- Chunks of swap_4_array ----------

  /** The 64-bit registers, by bswapq and rol (on an x86 host) or by masks. */
  method Chunk4Long(b: seq<bv8>, asm: bool, aligned: bool, little: bool, macro: bool) returns (w: seq<bv8>)
    requires |b| == 16 && (asm ==> little)
    ensures w == Swapped(b, if aligned || macro == little then 4 else 8)
  {
    var first := Half4Long(b[..8], asm, aligned, little, macro);
    var second := Half4Long(b[8..], asm, aligned, little, macro);
    w := first + second;
    assert b == b[..8] + b[8..];
    CountsLength(b[..8], 4, 2);
    SwappedConcat(b[..8], b[8..], 4, 2);
    CountsLength(b[..8], 8, 1);
    SwappedConcat(b[..8], b[8..], 8, 1);
  }

  method Half4Long(b: seq<bv8>, asm: bool, aligned: bool, little: bool, macro: bool) returns (w: seq<bv8>)
    requires |b| == 8 && (asm ==> little)
    ensures w == Swapped(b, if aligned || macro == little then 4 else 8)
  {
    FoursIn8(b);
    OneEight(b);
    var a, read := Read8(b, little);
    ghost var c := [read[3], read[2], read[1], read[0], read[7], read[6], read[5], read[4]];
    if asm {
      a := Bswap64(a, read);
      a := RolBy32(a, [read[7], read[6], read[5], read[4], read[3], read[2], read[1], read[0]]);
    } else {
      a := Mask4In8(a, read);
    }
    if aligned {
      w := Write8(a, little, c);
    } else {
      var c1 := High32Of8(a, c);
      var c2 := Low32Of8(a, c);
      var w1 := Write4(c1, little, [c[4], c[5], c[6], c[7]]);
      var w2 := Write4(c2, little, [c[0], c[1], c[2], c[3]]);
      w := if macro then w2 + w1 else w1 + w2;
    }
  }

  /** The 32-bit registers: four of them, each written back whole. */
  method Chunk4Short(b: seq<bv8>, asm: bool, little: bool) returns (w: seq<bv8>)
    requires |b| == 16
    ensures w == Swapped(b, 4)
  {
    var w0 := Swap4(b[..4], asm, little);
    var w1 := Swap4(b[4..8], asm, little);
    var w2 := Swap4(b[8..12], asm, little);
    var w3 := Swap4(b[12..], asm, little);
    w := w0 + w1 + w2 + w3;
    FourFours(b);
  }

  lemma FourFours(b: seq<bv8>)
    requires |b| == 16
    ensures Swapped(b, 4) == Swapped(b[..4], 4) + Swapped(b[4..8], 4) + Swapped(b[8..12], 4) + Swapped(b[12..], 4)
  {
    CountsLength(b[..4], 4, 1);
    CountsLength(b[4..8], 4, 1);
    CountsLength(b[8..12], 4, 1);
    SwappedConcat(b[8..12], b[12..], 4, 1);
    SwappedConcat(b[4..8], b[8..12] + b[12..], 4, 1);
    SwappedConcat(b[..4], b[4..8] + (b[8..12] + b[12..]), 4, 1);
    assert b == b[..4] + (b[4..8] + (b[8..12] + b[12..]));
  }

  // ---------- Single elements ----------

  method Swap2(b: seq<bv8>, little: bool) returns (w: seq<bv8>)
    requires |b| == 2
    ensures w == Reversed(b)
  {
    var x, read := Read2(b, little);
    x := Rotate2(x, read);
    w := Write2(x, little, [read[1], read[0]]);
  }

  method Swap4(b: seq<bv8>, asm: bool, little: bool) returns (w: seq<bv8>)
    requires |b| == 4
    ensures w == Reversed(b) == Swapped(b, 4)
  {
    OneFour(b);
    ReversedFour(b);
    var x, read := Read4(b, little);
    if asm {
      x := Bswap32(x, read);
    } else {
      x := Mask4(x, read);
    }
    w := Write4(x, little, [read[3], read[2], read[1], read[0]]);
  }

  /** How swap_8 is compiled: one instruction, two of them, or masks on long or on short registers. */
  datatype Kernel8 = OneBswap | TwoBswaps | LongMasks | ShortMasks

  method Swap8(b: seq<bv8>, kernel: Kernel8, little: bool) returns (w: seq<bv8>)
    requires |b| == 8
    ensures w == Reversed(b)
  {
    ReversedEight(b);
    if kernel.TwoBswaps? || kernel.ShortMasks? {
      var low := Swap4(b[..4], kernel.TwoBswaps?, little);
      var high := Swap4(b[4..], kernel.TwoBswaps?, little);
      ReversedFour(b[..4]);
      ReversedFour(b[4..]);
      w := high + low;
    } else {
      var x, read := Read8(b, little);
      ghost var c := [read[7], read[6], read[5], read[4], read[3], read[2], read[1], read[0]];
      if kernel.OneBswap? {
        x := Bswap64(x, read);
      } else {
        x := Mask4In8(x, read);
        x := RolBy32(x, [read[3], read[2], read[1], read[0], read[7], read[6], read[5], read[4]]);
      }
      w := Write8(x, little, c);
    }
  }
}
