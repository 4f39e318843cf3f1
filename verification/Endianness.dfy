/**
 The byte-swapping functions of src/bitsstream/Endianness.cpp on a memory that is one array of bytes;
 a pointer is an index, and its alignment that of the index. Elements of two and four bytes go through a
 prologue that aligns the source, an unrolled loop and an epilogue of at most three elements. Every
 method is proved to leave the memory that its steps end in, wherever source and target lie; when that
 is every element swapped is then a matter of exact conditions.
 */
module Endianness {
  import opened Elements
  import opened Kernels
  import opened Memory
  import opened Steps

  // ---------- Single elements ----------

  /**
   How the code is compiled: with the instructions of x86, whose hosts are little-endian; for which
   host; whether the macro YAT_LITTLE_ENDIAN is defined; and which of the kernels of swap_8.
   */
  datatype Build = Build(asm: bool, little: bool, macro: bool, kernel8: Kernel8)

  /** swap_2, swap_4 and swap_8. */
  method SwapElement(mem: array<bv8>, orig: nat, target: nat, size: nat, build: Build)
    requires (size == 2 || size == 4 || size == 8) && IsPiece(size, size)
    requires orig + size <= mem.Length && target + size <= mem.Length
    modifies mem
    ensures mem[..] == Step(old(mem[..]), orig, target, size, size)
    ensures mem[..] == Put(old(mem[..]), target, Reversed(old(mem[..])[orig..orig + size]))
  {
    var read := mem[orig..orig + size];
    assert read == mem[..][orig..orig + size];
    OneElement(read);
    var w;
    if size == 2 {
      w := Swap2(read, build.little);
    } else if size == 4 {
      w := Swap4(read, build.asm, build.little);
    } else {
      w := Swap8(read, build.kernel8, build.little);
    }
    Memcpy(mem, target, w);
  }

  // ---------- Loops ----------

  /** The bytes of n elements or chunks, whose size is 2, 4, 8 or 16. */
  function Bytes(size: nat, n: nat): nat {
    if size == 2 then 2 * n else if size == 4 then 4 * n else if size == 8 then 8 * n else 16 * n
  }

  lemma BytesAreWhole(size: nat, n: nat)
    requires size == 2 || size == 4 || size == 8 || size == 16
    ensures Whole(Bytes(size, n), size) && Bytes(size, n) == n * size
  {
    WholeTimes(n, size);
  }

  lemma OnePiece(size: nat)
    requires size > 0
    ensures IsPiece(size, size)
  {
    assert Whole(0, size);
  }

  lemma LeftAfterOne(left: nat, size: nat)
    requires Whole(left, size) && left > 0
    ensures left >= size && Whole(left - size, size)
  {
  }

  /** One element after the other: the aligning prologue, and swap_8_array. */
  method EachElement(mem: array<bv8>, o: nat, t: nat, size: nat, bytes: nat, build: Build)
    returns (orig: nat, target: nat)
    requires (size == 2 || size == 4 || size == 8) && IsPiece(size, size) && Whole(bytes, size)
    requires o + bytes <= mem.Length && t + bytes <= mem.Length
    modifies mem
    ensures mem[..] == EndOf(old(mem[..]), o, t, size, size, bytes)
    ensures orig == o + bytes && target == t + bytes
  {
    orig, target := o, t;
    var end := o + bytes;
    ghost var left: nat, goal := bytes, EndOf(mem[..], o, t, size, size, bytes);
    while orig < end
      invariant orig + left == end && target + left == t + bytes && Whole(left, size)
      invariant EndOf(mem[..], orig, target, size, size, left) == goal
      decreases left
    {
      LeftAfterOne(left, size);
      EndAfterStep(mem[..], orig, target, size, size, left);
      SwapElement(mem, orig, target, size, build);
      orig, target, left := orig + size, target + size, left - size;
    }
    NothingLeft(mem[..], orig, target, size, size);
  }

  // ---------- Chunks ----------

  /** The unrolled loops: two-byte elements by x86 instructions, long or short masks; four-byte ones. */
  datatype Kernel = TwosAsm | TwosLongMasks | TwosShortMasks | FoursLong | FoursShort {
    function Size(): nat { if FoursLong? || FoursShort? then 4 else 2 }

    function Chunk(): nat { 4 * Size() }

    /** How many bytes the kernel turns round as one: the element's, or more if pieces go out in the wrong order. */
    function Width(aligned: bool, build: Build): nat {
      if TwosAsm? || FoursShort? || aligned || build.macro == build.little then Size()
      else if TwosShortMasks? then 4
      else 8
    }
  }

  method SwapChunk(kernel: Kernel, b: seq<bv8>, aligned: bool, build: Build) returns (w: seq<bv8>)
    requires |b| == kernel.Chunk() && (build.asm ==> build.little)
    ensures w == Swapped(b, kernel.Width(aligned, build))
  {
    match kernel
    case TwosAsm => w := Chunk2Asm(b, aligned);
    case TwosLongMasks => w := Chunk2Masks64(b, aligned, build.little, build.macro);
    case TwosShortMasks => w := Chunk2Masks32(b, aligned, build.little, build.macro);
    case FoursLong => w := Chunk4Long(b, build.asm, aligned, build.little, build.macro);
    case FoursShort => w := Chunk4Short(b, build.asm, build.little);
  }

  lemma ChunkIsPiece(kernel: Kernel, aligned: bool, build: Build)
    ensures IsPiece(kernel.Chunk(), kernel.Width(aligned, build)) && IsPiece(kernel.Size(), kernel.Size())
    ensures kernel.Chunk() == 4 * kernel.Size() && kernel.Size() <= kernel.Width(aligned, build)
  {
    var width := kernel.Width(aligned, build);
    OnePiece(kernel.Size());
    WholeTimes(kernel.Chunk() / width, width);
    assert kernel.Chunk() == kernel.Chunk() / width * width;
  }

  /** A chunk is read as a whole before it is written. */
  method SwapChunkAt(mem: array<bv8>, orig: nat, target: nat, kernel: Kernel, aligned: bool, build: Build)
    requires (build.asm ==> build.little) && IsPiece(kernel.Chunk(), kernel.Width(aligned, build))
    requires orig + kernel.Chunk() <= mem.Length && target + kernel.Chunk() <= mem.Length
    modifies mem
    ensures mem[..] == Step(old(mem[..]), orig, target, kernel.Chunk(), kernel.Width(aligned, build))
  {
    var read := mem[orig..orig + kernel.Chunk()];
    assert read == mem[..][orig..orig + kernel.Chunk()];
    ghost var n := WholeCounts(read, kernel.Width(aligned, build));
    var w := SwapChunk(kernel, read, aligned, build);
    Memcpy(mem, target, w);
  }

  method Chunks(mem: array<bv8>, o: nat, t: nat, kernel: Kernel, bytes: nat, aligned: bool, build: Build)
    returns (orig: nat, target: nat)
    requires (build.asm ==> build.little) && IsPiece(kernel.Chunk(), kernel.Width(aligned, build))
    requires Whole(bytes, kernel.Chunk()) && o + bytes <= mem.Length && t + bytes <= mem.Length
    modifies mem
    ensures mem[..] == EndOf(old(mem[..]), o, t, kernel.Chunk(), kernel.Width(aligned, build), bytes)
    ensures orig == o + bytes && target == t + bytes
  {
    orig, target := o, t;
    var end := o + bytes;
    ghost var c, width := kernel.Chunk(), kernel.Width(aligned, build);
    ghost var left: nat, goal := bytes, EndOf(mem[..], o, t, c, width, bytes);
    while orig < end
      invariant orig + left == end && target + left == t + bytes && Whole(left, c)
      invariant EndOf(mem[..], orig, target, c, width, left) == goal
      decreases left
    {
      EndAfterStep(mem[..], orig, target, c, width, left);
      SwapChunkAt(mem, orig, target, kernel, aligned, build);
      orig, target, left := orig + kernel.Chunk(), target + kernel.Chunk(), left - c;
    }
    NothingLeft(mem[..], orig, target, c, width);
  }

  /** The switch that falls through: three, two, one or no elements. */
  method Rest(mem: array<bv8>, o: nat, t: nat, size: nat, n: nat, build: Build)
    requires (size == 2 || size == 4) && IsPiece(size, size) && n < 4
    requires o + Bytes(size, n) <= mem.Length && t + Bytes(size, n) <= mem.Length
    modifies mem
    ensures mem[..] == EndOf(old(mem[..]), o, t, size, size, Bytes(size, n))
  {
    var orig, target := o, t;
    ghost var left, goal := n, EndOf(mem[..], o, t, size, size, Bytes(size, n));
    if n >= 3 {
      OneOfRest(mem, orig, target, size, 3, build);
      orig, target, left := orig + size, target + size, 2;
    }
    assert left == (if n == 3 then 2 else n) && orig + Bytes(size, left) == o + Bytes(size, n);
    assert orig - o == target - t && EndOf(mem[..], orig, target, size, size, Bytes(size, left)) == goal;
    if n >= 2 {
      OneOfRest(mem, orig, target, size, 2, build);
      orig, target, left := orig + size, target + size, 1;
    }
    assert left == (if n == 0 then 0 else 1) && orig + Bytes(size, left) == o + Bytes(size, n);
    assert orig - o == target - t && EndOf(mem[..], orig, target, size, size, Bytes(size, left)) == goal;
    if n >= 1 {
      OneOfRest(mem, orig, target, size, 1, build);
      orig, target := orig + size, target + size;
    }
    NothingLeft(mem[..], orig, target, size, size);
  }

  method OneOfRest(mem: array<bv8>, orig: nat, target: nat, size: nat, ghost n: nat, build: Build)
    requires (size == 2 || size == 4) && IsPiece(size, size) && n > 0
    requires orig + Bytes(size, n) <= mem.Length && target + Bytes(size, n) <= mem.Length
    modifies mem
    ensures EndOf(mem[..], orig + size, target + size, size, size, Bytes(size, n - 1))
         == EndOf(old(mem[..]), orig, target, size, size, Bytes(size, n))
  {
    assert Bytes(size, n - 1) == Bytes(size, n) - size;
    EndAfterStep(mem[..], orig, target, size, size, Bytes(size, n));
    SwapElement(mem, orig, target, size, build);
  }

  // ---------- Alignment ----------

  /** ALIGN_BINARY for the alignments in use, on addresses that do not wrap. */
  function AlignBinary(ptr: nat, alignment: nat): (r: nat)
    requires alignment == 4 || alignment == 8
    ensures r >= ptr && r - ptr < alignment && r % alignment == 0
  {
    ptr + (alignment - 1) - (ptr + (alignment - 1)) % alignment
  }

  /** It is the next aligned address. */
  lemma AlignBinaryIsNext(ptr: nat, alignment: nat, a: nat)
    requires alignment == 4 || alignment == 8
    requires a >= ptr && a % alignment == 0
    ensures AlignBinary(ptr, alignment) <= a
  {
  }

  /** Clearing the low bits of the word, as the code does it, has the same three properties as AlignBinary. */
  lemma AlignBinaryBits(ptr: bv64)
    ensures ptr <= 0xffff_ffff_ffff_fffc ==> var r := (ptr + 3) & !3; r >= ptr && r - ptr < 4 && r % 4 == 0
    ensures ptr <= 0xffff_ffff_ffff_fff8 ==> var r := (ptr + 7) & !7; r >= ptr && r - ptr < 8 && r % 8 == 0
  {
  }

  // ---------- swap_2_array and swap_4_array ----------

  /**
   How many elements the prologue takes. For two-byte elements it aligns the source to 8, with a
   loop, where the unrolled loop reads longs, and else to 4, with an if; four-byte elements are
   aligned to 8, or not at all where longs are short.
   */
  function Prologue(kernel: Kernel, wide: bool, orig: nat, n: nat): (k: nat)
    requires orig % kernel.Size() == 0
    ensures k <= n && Bytes(kernel.Size(), k) <= Bytes(kernel.Size(), n)
  {
    if n == 0 || kernel.FoursShort? then 0
    else if kernel.FoursLong? then if orig != AlignBinary(orig, 8) then 1 else 0
    else if wide then
      var k := (AlignBinary(orig, 8) - orig) / 2;
      if k < n then k else n
    else if orig != AlignBinary(orig, 4) then 1 else 0
  }

  /** What the registers of the unrolled loop have to be aligned to. */
  function Alignment(kernel: Kernel, wide: bool): (a: nat)
    ensures a == 4 || a == 8
  {
    if kernel.FoursLong? || (wide && !kernel.FoursShort?) then 8 else 4
  }

  /** Whether the target may be written in whole registers. */
  function Aligned(kernel: Kernel, wide: bool, target: nat): bool {
    target == AlignBinary(target, Alignment(kernel, wide))
  }

  /**
   The prologue takes the fewest elements after which the unrolled loop reads from aligned addresses,
   unless the array ends before.
   */
  lemma PrologueAligns(kernel: Kernel, wide: bool, orig: nat, n: nat)
    requires orig % kernel.Size() == 0
    ensures var k := Prologue(kernel, wide, orig, n);
            && (k == n || (orig + Bytes(kernel.Size(), k)) % Alignment(kernel, wide) == 0)
            && (forall j :: 0 <= j < k ==> Misaligned(orig + Bytes(kernel.Size(), j), Alignment(kernel, wide)))
  {
    match kernel
    case FoursLong => FourToEight(orig);
    case FoursShort =>
    case TwosAsm => if wide { TwosToEight(orig); } else { TwoToFour(orig); }
    case TwosLongMasks => if wide { TwosToEight(orig); } else { TwoToFour(orig); }
    case TwosShortMasks => if wide { TwosToEight(orig); } else { TwoToFour(orig); }
  }

  predicate Misaligned(p: int, alignment: nat)
    requires alignment > 0
  {
    p % alignment != 0
  }

  lemma TwosToEight(orig: nat)
    requires orig % 2 == 0
    ensures var k := (AlignBinary(orig, 8) - orig) / 2;
            (orig + 2 * k) % 8 == 0 && forall j :: 0 <= j < k ==> Misaligned(orig + 2 * j, 8)
  {
    var q, r := orig / 8, orig % 8;
    AlignedTo8(orig, q, r);
    StepsToEight(q, r);
  }

  lemma AlignedTo8(orig: nat, q: nat, r: nat)
    requires orig == 8 * q + r && r < 8
    ensures AlignBinary(orig, 8) == if r == 0 then 8 * q else 8 * q + 8
  {
  }

  lemma StepsToEight(q: nat, r: nat)
    requires r == 0 || r == 2 || r == 4 || r == 6
    ensures var k := if r == 0 then 0 else (8 - r) / 2;
            && (8 * q + r + 2 * k) % 8 == 0
            && forall j :: 0 <= j < k ==> Misaligned(8 * q + r + 2 * j, 8)
  {
    forall j | 0 <= j < if r == 0 then 0 else (8 - r) / 2
      ensures Misaligned(8 * q + r + 2 * j, 8)
    {
      assert 0 < r + 2 * j < 8 && 8 * q + r + 2 * j == 8 * q + (r + 2 * j);
    }
  }

  lemma TwoToFour(orig: nat)
    requires orig % 2 == 0
    ensures if orig != AlignBinary(orig, 4) then (orig + 2) % 4 == 0 && Misaligned(orig, 4) else orig % 4 == 0
  {
  }

  lemma FourToEight(orig: nat)
    requires orig % 4 == 0
    ensures if orig != AlignBinary(orig, 8) then (orig + 4) % 8 == 0 && Misaligned(orig, 8) else orig % 8 == 0
  {
  }

  /** The target is written whole exactly when it is aligned. */
  lemma AlignedIff(kernel: Kernel, wide: bool, target: nat)
    ensures Aligned(kernel, wide, target) <==> target % Alignment(kernel, wide) == 0
    ensures Alignment(kernel, wide) == if kernel.FoursLong? || (wide && !kernel.FoursShort?) then 8 else 4
  {
  }

  /** How a call divides the bytes: the prologue, the unrolled loop, which writes with some width, and the rest. */
  function LayoutOf(kernel: Kernel, wide: bool, orig: nat, target: nat, n: nat, build: Build): (l: Layout)
    requires orig % kernel.Size() == 0
    ensures l.Total() == Bytes(kernel.Size(), n)
  {
    LayoutFrom(kernel, wide, Prologue(kernel, wide, orig, n), target, n, build)
  }

  /** The same for a prologue of p elements. */
  function LayoutFrom(kernel: Kernel, wide: bool, p: nat, target: nat, n: nat, build: Build): (l: Layout)
    requires p <= n
    ensures l.size == kernel.Size() && l.Total() == Bytes(kernel.Size(), n)
  {
    var k, mid, rest := Bytes(kernel.Size(), p), Bytes(kernel.Chunk(), (n - p) / 4), Bytes(kernel.Size(), (n - p) % 4);
    var aligned := Aligned(kernel, wide, target + k);
    LayoutFits(kernel, p, n, aligned, build);
    Parts(kernel.Size(), k, mid, rest, kernel.Width(aligned, build))
  }

  /** How many steps a call makes. */
  function StepCount(kernel: Kernel, wide: bool, orig: nat, n: nat): nat
    requires orig % kernel.Size() == 0
  {
    var p := Prologue(kernel, wide, orig, n);
    p + (n - p) / 4 + (n - p) % 4
  }

  /** The unrolled loop is not taken, or it turns round the elements. */
  predicate LoopSwaps(orig: nat, target: nat, n: nat, kernel: Kernel, wide: bool, build: Build)
    requires orig % kernel.Size() == 0
  {
    var p := Prologue(kernel, wide, orig, n);
    n - p < 4 || WritesElements(kernel, wide, target + Bytes(kernel.Size(), p), build)
  }

  /**
   The kernel writes whole registers, or the macro is defined just on hosts that are little-endian, or the
   target is aligned.
   */
  predicate WritesElements(kernel: Kernel, wide: bool, target: nat, build: Build) {
    || kernel.TwosAsm? || kernel.FoursShort? || build.macro == build.little
    || target % Alignment(kernel, wide) == 0
  }

  lemma LayoutFits(kernel: Kernel, p: nat, n: nat, aligned: bool, build: Build)
    requires p <= n
    ensures var k, mid := Bytes(kernel.Size(), p), Bytes(kernel.Chunk(), (n - p) / 4);
            var rest := Bytes(kernel.Size(), (n - p) % 4);
            Parts(kernel.Size(), k, mid, rest, kernel.Width(aligned, build)).Fits()
            && k + mid + rest == Bytes(kernel.Size(), n)
  {
    var q, r := (n - p) / 4, (n - p) % 4;
    ChunkIsPiece(kernel, aligned, build);
    BytesAreWhole(kernel.Size(), p);
    BytesAreWhole(kernel.Chunk(), q);
    BytesAreWhole(kernel.Size(), r);
    TotalIs(kernel, p, q, r, n);
  }

  lemma TotalIs(kernel: Kernel, p: nat, q: nat, r: nat, n: nat)
    requires p + 4 * q + r == n
    ensures Bytes(kernel.Size(), p) + Bytes(kernel.Chunk(), q) + Bytes(kernel.Size(), r) == Bytes(kernel.Size(), n)
  {
  }

  lemma LayoutMeans(kernel: Kernel, wide: bool, p: nat, target: nat, n: nat, build: Build)
    requires p <= n
    ensures var l := LayoutFrom(kernel, wide, p, target, n, build);
            && (l.OneStep() <==> p + (n - p) / 4 + (n - p) % 4 <= 1)
            && (l.middle == 0 || l.width == l.size
                <==> n - p < 4 || WritesElements(kernel, wide, target + Bytes(kernel.Size(), p), build))
  {
    PartsMean(kernel, wide, p, (n - p) / 4, (n - p) % 4, target, build, LayoutFrom(kernel, wide, p, target, n, build));
  }

  /** p elements, then q chunks, then r elements. */
  lemma PartsMean(kernel: Kernel, wide: bool, p: nat, q: nat, r: nat, target: nat, build: Build, l: Layout)
    requires l == Parts(kernel.Size(), Bytes(kernel.Size(), p), Bytes(kernel.Chunk(), q), Bytes(kernel.Size(), r),
                        kernel.Width(Aligned(kernel, wide, target + Bytes(kernel.Size(), p)), build))
    ensures l.OneStep() <==> p + q + r <= 1
    ensures l.middle == 0 || l.width == l.size
            <==> q == 0 || WritesElements(kernel, wide, target + Bytes(kernel.Size(), p), build)
  {
    var behind := target + Bytes(kernel.Size(), p);
    OneStepIff(kernel.Size(), p, q, r, kernel.Width(Aligned(kernel, wide, behind), build));
    WidthIsSizeIff(kernel, wide, behind, build);
    NoChunks(kernel, q);
  }

  lemma OneStepIff(size: nat, p: nat, q: nat, r: nat, width: nat)
    requires size == 2 || size == 4
    ensures Parts(size, Bytes(size, p), Bytes(4 * size, q), Bytes(size, r), width).OneStep() <==> p + q + r <= 1
  {
  }

  lemma WidthIsSizeIff(kernel: Kernel, wide: bool, target: nat, build: Build)
    ensures kernel.Width(Aligned(kernel, wide, target), build) == kernel.Size()
            <==> WritesElements(kernel, wide, target, build)
  {
    AlignedIff(kernel, wide, target);
  }

  lemma NoChunks(kernel: Kernel, q: nat)
    ensures Bytes(kernel.Chunk(), q) == 0 <==> q == 0
  {
  }

  /** swap_2_array and swap_4_array, which differ in the kernel; the source is aligned to elements. */
  method SwapArray(mem: array<bv8>, orig: nat, target: nat, n: nat, kernel: Kernel, wide: bool, build: Build)
    requires orig % kernel.Size() == 0 && (build.asm ==> build.little)
    requires orig + Bytes(kernel.Size(), n) <= mem.Length && target + Bytes(kernel.Size(), n) <= mem.Length
    modifies mem
    ensures var l := LayoutOf(kernel, wide, orig, target, n, build);
            mem[..] == LayoutRun(old(mem[..]), orig, target, l)
  {
    if n == 0 {
      EmptyLayout(mem[..], orig, target, LayoutOf(kernel, wide, orig, target, n, build));
      return;
    }
    SwapBehind(mem, orig, target, Prologue(kernel, wide, orig, n), n, kernel, wide, build);
  }

  /** A call with a prologue of p elements. */
  method SwapBehind(mem: array<bv8>, orig: nat, target: nat, p: nat, n: nat, kernel: Kernel, wide: bool, build: Build)
    requires (build.asm ==> build.little) && p <= n
    requires orig + Bytes(kernel.Size(), n) <= mem.Length && target + Bytes(kernel.Size(), n) <= mem.Length
    modifies mem
    ensures mem[..] == LayoutRun(old(mem[..]), orig, target, LayoutFrom(kernel, wide, p, target, n, build))
  {
    ghost var l := LayoutFrom(kernel, wide, p, target, n, build);
    SwapLayout(mem, orig, target, p, (n - p) / 4, (n - p) % 4, kernel, wide, build, l);
  }

  /** p elements, then q chunks of four, then the last r ones. */
  method SwapLayout(mem: array<bv8>, orig: nat, target: nat, p: nat, q: nat, r: nat, kernel: Kernel, wide: bool,
                    build: Build, ghost l: Layout)
    requires (build.asm ==> build.little) && r < 4
    requires orig + l.Total() <= mem.Length && target + l.Total() <= mem.Length
    requires l.size == kernel.Size() && l.first == Bytes(l.size, p)
    requires l.middle == Bytes(kernel.Chunk(), q) && l.rest == Bytes(l.size, r)
    requires l.width == kernel.Width(Aligned(kernel, wide, target + l.first), build)
    modifies mem
    ensures mem[..] == LayoutRun(old(mem[..]), orig, target, l)
  {
    ChunkIsPiece(kernel, Aligned(kernel, wide, target + l.first), build);
    var o, t := EachElement(mem, orig, target, kernel.Size(), Bytes(kernel.Size(), p), build);
    var aligned := Aligned(kernel, wide, t);
    o, t := Chunks(mem, o, t, kernel, Bytes(kernel.Chunk(), q), aligned, build);
    Rest(mem, o, t, kernel.Size(), r, build);
  }

  // ---------- When a call is right ----------

  /**
   In every memory of this size the call leaves each element of the source swapped at the target, and all
   else as it was.
   */
  ghost predicate CallIsRight(size: nat, orig: nat, target: nat, n: nat, kernel: Kernel, wide: bool, build: Build)
    requires orig % kernel.Size() == 0
    requires orig + Bytes(kernel.Size(), n) <= size && target + Bytes(kernel.Size(), n) <= size
  {
    AlwaysRight(size, orig, target, LayoutOf(kernel, wide, orig, target, n, build))
  }

  /**
   swap_2_array and swap_4_array are right, whatever the memory holds, exactly when the target is apart
   from the source, or everything is done in a single step; and the loop turns round the elements.
   */
  lemma CallIsRightIff(size: nat, orig: nat, target: nat, n: nat, kernel: Kernel, wide: bool, build: Build)
    requires orig % kernel.Size() == 0
    requires orig + Bytes(kernel.Size(), n) <= size && target + Bytes(kernel.Size(), n) <= size
    ensures CallIsRight(size, orig, target, n, kernel, wide, build)
            <==> (Apart(orig, target, Bytes(kernel.Size(), n)) || StepCount(kernel, wide, orig, n) <= 1)
                 && LoopSwaps(orig, target, n, kernel, wide, build)
  {
    var p := Prologue(kernel, wide, orig, n);
    var l := LayoutFrom(kernel, wide, p, target, n, build);
    GuardsAre(orig, target, p, n, kernel, wide, build);
    RightFromIff(size, orig, target, p, n, kernel, wide, build, l);
  }

  lemma GuardsAre(orig: nat, target: nat, p: nat, n: nat, kernel: Kernel, wide: bool, build: Build)
    requires orig % kernel.Size() == 0 && p == Prologue(kernel, wide, orig, n)
    ensures StepCount(kernel, wide, orig, n) == p + (n - p) / 4 + (n - p) % 4
    ensures LoopSwaps(orig, target, n, kernel, wide, build)
            <==> n - p < 4 || WritesElements(kernel, wide, target + Bytes(kernel.Size(), p), build)
  {
  }

  lemma RightFromIff(size: nat, orig: nat, target: nat, p: nat, n: nat, kernel: Kernel, wide: bool, build: Build,
                     l: Layout)
    requires p <= n && l == LayoutFrom(kernel, wide, p, target, n, build)
    requires orig + Bytes(kernel.Size(), n) <= size && target + Bytes(kernel.Size(), n) <= size
    ensures AlwaysRight(size, orig, target, l)
            <==> (Apart(orig, target, Bytes(kernel.Size(), n)) || p + (n - p) / 4 + (n - p) % 4 <= 1)
                 && (n - p < 4 || WritesElements(kernel, wide, target + Bytes(kernel.Size(), p), build))
  {
    LayoutMeans(kernel, wide, p, target, n, build);
    LayoutIsRightIff(size, orig, target, l);
  }

  /** With longs, four or more elements of four bytes from an aligned source to an unaligned target go wrong. */
  lemma UnalignedFoursFail(size: nat, orig: nat, target: nat, n: nat, kernel: Kernel, wide: bool, build: Build)
    requires kernel == FoursLong && orig % 8 == 0 && target % 8 == 4 && n >= 4 && build.macro != build.little
    requires orig % kernel.Size() == 0
    requires orig + Bytes(kernel.Size(), n) <= size && target + Bytes(kernel.Size(), n) <= size
    ensures !CallIsRight(size, orig, target, n, kernel, wide, build)
  {
    LoopFails(orig, target, n, wide, build);
    CallIsRightIff(size, orig, target, n, kernel, wide, build);
  }

  lemma LoopFails(orig: nat, target: nat, n: nat, wide: bool, build: Build)
    requires orig % 8 == 0 && target % 8 == 4 && n >= 4 && build.macro != build.little
    ensures !LoopSwaps(orig, target, n, FoursLong, wide, build)
  {
  }

  /** Thus on x86-64, where the macro is not defined, the four elements at address 0 to address 36. */
  lemma FoursOnX86Fail()
    ensures !CallIsRight(52, 0, 36, 4, FoursLong, true, Build(true, true, false, OneBswap))
  {
    UnalignedFoursFail(52, 0, 36, 4, FoursLong, true, Build(true, true, false, OneBswap));
  }

  /** In place every build swaps every element: the prologue aligns the target with the source. */
  lemma InPlaceIsRight(size: nat, at: nat, n: nat, kernel: Kernel, wide: bool, build: Build)
    requires at % kernel.Size() == 0 && at + Bytes(kernel.Size(), n) <= size
    ensures CallIsRight(size, at, at, n, kernel, wide, build)
  {
    PrologueAligns(kernel, wide, at, n);
    CallIsRightIff(size, at, at, n, kernel, wide, build);
  }

  // ---------- swap_8_array ----------

  method Swap8Array(mem: array<bv8>, orig: nat, target: nat, n: nat, build: Build)
    requires orig + 8 * n <= mem.Length && target + 8 * n <= mem.Length
    modifies mem
    ensures IsPiece(8, 8) && mem[..] == EndOf(old(mem[..]), orig, target, 8, 8, 8 * n)
  {
    OnePiece(8);
    BytesAreWhole(8, n);
    var o, t := EachElement(mem, orig, target, 8, 8 * n, build);
  }

  ghost predicate Run8IsRight(m: seq<bv8>, orig: nat, target: nat, n: nat)
    requires orig + 8 * n <= |m| && target + 8 * n <= |m|
  {
    IsPiece(8, 8) && EndOf(m, orig, target, 8, 8, 8 * n) == Put(m, target, Swapped(m[orig..][..8 * n], 8))
  }

  /** swap_8_array is right exactly when the target is apart from the source, or there is one element at most. */
  lemma Run8IsRightIff(size: nat, orig: nat, target: nat, n: nat)
    requires orig + 8 * n <= size && target + 8 * n <= size
    ensures (forall m: seq<bv8> {:trigger Run8IsRight(m, orig, target, n)} ::
               |m| == size ==> Run8IsRight(m, orig, target, n))
            <==> Apart(orig, target, 8 * n) || n <= 1
  {
    if Apart(orig, target, 8 * n) || n <= 1 {
      forall m: seq<bv8> | |m| == size
        ensures Run8IsRight(m, orig, target, n)
      {
        BytesAreWhole(8, n);
        OnePiece(8);
        EndIs(m, orig, target, 8, 8, 8 * n);
      }
    } else {
      var m := Clobbered8Fails(size, orig, target, n);
    }
  }

  lemma Clobbered8Fails(size: nat, orig: nat, target: nat, n: nat) returns (m: seq<bv8>)
    requires orig + 8 * n <= size && target + 8 * n <= size && !Apart(orig, target, 8 * n) && n > 1
    ensures |m| == size && !Run8IsRight(m, orig, target, n)
  {
    var x := if target < orig + 8 then orig + 8 else target;
    m := OneAt(size, x);
    OnePiece(8);
    Clobbered(m, orig, target, 8, 8, 8 * n, x);
    OneShows(m, orig, target, 8, n, x);
  }

  // ---------- Twice ----------

  /** Elements swapped in place twice are as they were. */
  lemma TwiceInPlace(m: seq<bv8>, at: nat, size: nat, n: nat)
    requires size > 0 && at + n * size <= |m|
    ensures |Swapped(m[at..][..n * size], size)| == n * size
    ensures var once := Put(m, at, Swapped(m[at..][..n * size], size));
            |Swapped(once[at..][..n * size], size)| == n * size
            && Put(once, at, Swapped(once[at..][..n * size], size)) == m
  {
    var s := m[at..][..n * size];
    CountsLength(s, size, n);
    SwappedLength(s, size, n);
    SwappedTwice(s, size, n);
    PutBack(m, at, s, Swapped(s, size));
  }

  lemma PutBack(m: seq<bv8>, at: nat, s: seq<bv8>, w: seq<bv8>)
    requires at + |s| <= |m| && s == m[at..][..|s|] && |w| == |s|
    ensures var once := Put(m, at, w); once[at..][..|s|] == w && Put(once, at, s) == m
  {
  }

  /** swap_2_array or swap_4_array called twice in place. */
  method SwapArrayTwice(mem: array<bv8>, at: nat, n: nat, kernel: Kernel, wide: bool, build: Build)
    requires at % kernel.Size() == 0 && (build.asm ==> build.little)
    requires at + Bytes(kernel.Size(), n) <= mem.Length
    modifies mem
    ensures mem[..] == old(mem[..])
  {
    BytesAreWhole(kernel.Size(), n);
    TwiceInPlace(mem[..], at, kernel.Size(), n);
    SwapInPlace(mem, at, n, kernel, wide, build);
    SwapInPlace(mem, at, n, kernel, wide, build);
  }

  /** swap_2_array or swap_4_array called in place. */
  method SwapInPlace(mem: array<bv8>, at: nat, n: nat, kernel: Kernel, wide: bool, build: Build)
    requires at % kernel.Size() == 0 && (build.asm ==> build.little)
    requires at + Bytes(kernel.Size(), n) <= mem.Length
    modifies mem
    ensures mem[..] == Put(old(mem[..]), at, Swapped(old(mem[..])[at..][..Bytes(kernel.Size(), n)], kernel.Size()))
  {
    InPlaceRun(mem[..], at, n, kernel, wide, build);
    SwapArray(mem, at, at, n, kernel, wide, build);
  }

  lemma InPlaceRun(m: seq<bv8>, at: nat, n: nat, kernel: Kernel, wide: bool, build: Build)
    requires at % kernel.Size() == 0 && at + Bytes(kernel.Size(), n) <= |m|
    ensures var l := LayoutOf(kernel, wide, at, at, n, build);
            LayoutRun(m, at, at, l) == Put(m, at, Swapped(m[at..][..Bytes(kernel.Size(), n)], kernel.Size()))
  {
    InPlaceIsRight(|m|, at, n, kernel, wide, build);
    RightHere(m, at, at, LayoutOf(kernel, wide, at, at, n, build));
  }

  lemma RightHere(m: seq<bv8>, orig: nat, target: nat, l: Layout)
    requires orig + l.Total() <= |m| && target + l.Total() <= |m| && AlwaysRight(|m|, orig, target, l)
    ensures LayoutRun(m, orig, target, l) == Put(m, target, Swapped(m[orig..][..l.Total()], l.size))
  {
    assert LayoutIsRight(m, orig, target, l);
  }

  /** swap_8_array called twice in place. */
  method Swap8ArrayTwice(mem: array<bv8>, at: nat, n: nat, build: Build)
    requires at + 8 * n <= mem.Length
    modifies mem
    ensures mem[..] == old(mem[..])
  {
    OnePiece(8);
    BytesAreWhole(8, n);
    TwiceInPlace(mem[..], at, 8, n);
    EndIs(mem[..], at, at, 8, 8, 8 * n);
    Swap8Array(mem, at, at, n, build);
    EndIs(mem[..], at, at, 8, 8, 8 * n);
    Swap8Array(mem, at, at, n, build);
  }
}
