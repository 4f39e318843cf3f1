/**
 Reading pieces of memory one after the other, and writing each with its bytes turned round, wherever
 source and target lie: what the array functions of src/bitsstream/Endianness.cpp come to. Such a run is
 right for every memory exactly when no piece is overwritten before it is read, and when what is turned
 round are the elements.
 */
module Steps {
  import opened Wrappers
  import opened Arithmetic
  import opened Elements
  import opened Memory

  // ---------- Memory ----------

  lemma PutElsewhere(m: seq<bv8>, at: nat, w: seq<bv8>, from: nat, c: nat)
    requires at + |w| <= |m| && from + c <= |m| && (from + c <= at || at + |w| <= from)
    ensures Put(m, at, w)[from..from + c] == m[from..from + c]
  {
    var r := Put(m, at, w);
    assert forall j :: from <= j < from + c ==> r[j] == m[j];
  }

  lemma PutMore(m: seq<bv8>, at: nat, w: seq<bv8>, piece: seq<bv8>)
    requires at + |w| + |piece| <= |m|
    ensures Put(Put(m, at, w), at + |w|, piece) == Put(m, at, w + piece)
  {
    var once := Put(m, at, w);
    assert once[..at + |w|] == m[..at] + w;
    assert once[at + |w| + |piece|..] == m[at + |w| + |piece|..];
  }

  lemma PutSame(m: seq<bv8>, at: nat, w: seq<bv8>, v: seq<bv8>)
    requires at + |w| <= |m| && |v| == |w|
    ensures Put(m, at, w) == Put(m, at, v) <==> w == v
  {
    assert Put(m, at, w)[at..at + |w|] == w && Put(m, at, v)[at..at + |w|] == v;
  }

  lemma SliceFrom(m: seq<bv8>, k: nat, c: nat)
    requires k + c <= |m|
    ensures m[k..][..c] == m[k..k + c]
  {
  }

  // ---------- Runs ----------

  /** So many bytes are whole pieces of a size. */
  predicate Whole(bytes: nat, size: nat)
    decreases bytes
  {
    bytes == 0 || (0 < size <= bytes && Whole(bytes - size, size))
  }

  lemma {:induction false} WholeSum(x: nat, y: nat, size: nat)
    requires Whole(x, size) && Whole(y, size)
    ensures Whole(x + y, size)
    decreases x
  {
    if x > 0 {
      WholeSum(x - size, y, size);
    }
  }

  lemma {:induction false} WholeOfWhole(bytes: nat, c: nat, size: nat)
    requires Whole(bytes, c) && Whole(c, size)
    ensures Whole(bytes, size)
    decreases bytes
  {
    if bytes > 0 {
      WholeOfWhole(bytes - c, c, size);
      WholeSum(bytes - c, c, size);
    }
  }

  lemma {:induction false} WholeTimes(n: nat, size: nat)
    requires size > 0
    ensures Whole(n * size, size)
  {
    if n > 0 {
      assert n * size == (n - 1) * size + size;
      assert (n - 1) * size >= 0;
      WholeTimes(n - 1, size);
    }
  }

  lemma {:induction false} WholeIs(bytes: nat, size: nat) returns (n: nat)
    requires Whole(bytes, size)
    ensures bytes == n * size
    decreases bytes
  {
    if bytes == 0 {
      n := 0;
    } else {
      var rest := WholeIs(bytes - size, size);
      n := rest + 1;
    }
  }

  lemma WholeCounts(b: seq<bv8>, size: nat) returns (n: nat)
    requires size > 0 && Whole(|b|, size)
    ensures Counts(b, size, n) && |Swapped(b, size)| == |b| == n * size
  {
    n := WholeIs(|b|, size);
    CountsLength(b, size, n);
    SwappedLength(b, size, n);
  }

  /** The sizes of what is read in one go, and of what is turned round in it. */
  predicate IsPiece(c: nat, width: nat) {
    c > 0 && width > 0 && Whole(c, width)
  }

  /** c bytes are read, then written with the bytes of every width turned round. */
  function Step(m: seq<bv8>, orig: nat, target: nat, c: nat, width: nat): (r: seq<bv8>)
    requires IsPiece(c, width) && orig + c <= |m| && target + c <= |m|
    ensures |r| == |m|
  {
    Put(m, target, Swapped(m[orig..orig + c], width))
  }

  /** So many bytes in one step after the other, wherever source and target lie. */
  function StepRun(m: seq<bv8>, orig: nat, target: nat, c: nat, width: nat, bytes: nat): (r: seq<bv8>)
    requires IsPiece(c, width) && orig + bytes <= |m| && target + bytes <= |m|
    ensures |r| == |m|
    decreases bytes
  {
    if bytes < c then m else StepRun(Step(m, orig, target, c, width), orig + c, target + c, c, width, bytes - c)
  }

  /** This is the memory that a run ends in; Look(0) takes it apart. */
  ghost predicate IsEnd(r: seq<bv8>, m: seq<bv8>, orig: nat, target: nat, c: nat, width: nat, bytes: nat)
    requires IsPiece(c, width) && orig + bytes <= |m| && target + bytes <= |m|
  {
    |r| == |m| && forall key {:trigger Look(key)} :: Look(key) ==> r == StepRun(m, orig, target, c, width, bytes)
  }

  /** The same as StepRun, for proofs that hand it on whole. */
  ghost function EndOf(m: seq<bv8>, orig: nat, target: nat, c: nat, width: nat, bytes: nat): (r: seq<bv8>)
    requires IsPiece(c, width) && orig + bytes <= |m| && target + bytes <= |m|
    ensures |r| == |m|
  {
    assert IsEnd(StepRun(m, orig, target, c, width, bytes), m, orig, target, c, width, bytes);
    var r :| IsEnd(r, m, orig, target, c, width, bytes);
    r
  }

  lemma EndIsRun(m: seq<bv8>, orig: nat, target: nat, c: nat, width: nat, bytes: nat)
    requires IsPiece(c, width) && orig + bytes <= |m| && target + bytes <= |m|
    ensures EndOf(m, orig, target, c, width, bytes) == StepRun(m, orig, target, c, width, bytes)
  {
    assert Look(0);
  }

  lemma EndAfterStep(m: seq<bv8>, orig: nat, target: nat, c: nat, width: nat, bytes: nat)
    requires IsPiece(c, width) && orig + bytes <= |m| && target + bytes <= |m| && bytes >= c
    ensures EndOf(m, orig, target, c, width, bytes)
         == EndOf(Step(m, orig, target, c, width), orig + c, target + c, c, width, bytes - c)
  {
    assert Look(0);
  }

  lemma NothingLeft(m: seq<bv8>, orig: nat, target: nat, c: nat, width: nat)
    requires IsPiece(c, width) && orig <= |m| && target <= |m|
    ensures EndOf(m, orig, target, c, width, 0) == m
  {
    assert Look(0);
  }

  // ---------- What a run comes to ----------

  /** The target lies on or below the source, or behind its end. */
  predicate Apart(orig: nat, target: nat, total: nat) {
    target <= orig || orig + total <= target
  }

  /** Apart from the source, or in a single step, all that is read is as it was before. */
  lemma {:induction false} EndIs(m: seq<bv8>, orig: nat, target: nat, c: nat, width: nat, bytes: nat)
    requires IsPiece(c, width) && Whole(bytes, c) && orig + bytes <= |m| && target + bytes <= |m|
    requires Apart(orig, target, bytes) || bytes <= c
    ensures |Swapped(m[orig..][..bytes], width)| == bytes
    ensures EndOf(m, orig, target, c, width, bytes) == Put(m, target, Swapped(m[orig..][..bytes], width))
    decreases bytes
  {
    if bytes == 0 {
      NothingLeft(m, orig, target, c, width);
      assert Put(m, target, []) == m;
    } else {
      var first, rest := Swapped(m[orig..orig + c], width), Swapped(m[orig + c..][..bytes - c], width);
      FirstThenRest(m, orig, target, c, width, bytes);
      EndIs(Put(m, target, first), orig + c, target + c, c, width, bytes - c);
      PutMore(m, target, first, rest);
    }
  }

  lemma FirstThenRest(m: seq<bv8>, orig: nat, target: nat, c: nat, width: nat, bytes: nat)
    requires IsPiece(c, width) && Whole(bytes, c) && orig + bytes <= |m| && target + bytes <= |m| && bytes > 0
    requires Apart(orig, target, bytes) || bytes <= c
    ensures bytes >= c && Whole(bytes - c, c)
    ensures var first, rest := Swapped(m[orig..orig + c], width), m[orig + c..][..bytes - c];
            && |first| == c && Swapped(m[orig..][..bytes], width) == first + Swapped(rest, width)
            && Put(m, target, first)[orig + c..][..bytes - c] == rest
            && EndOf(m, orig, target, c, width, bytes)
               == EndOf(Put(m, target, first), orig + c, target + c, c, width, bytes - c)
  {
    EndAfterStep(m, orig, target, c, width, bytes);
    FirstPiece(m, orig, c, width, bytes);
    RestUnread(m, orig, target, c, width, bytes);
  }

  lemma FirstPiece(m: seq<bv8>, orig: nat, c: nat, width: nat, bytes: nat)
    requires IsPiece(c, width) && c <= bytes && orig + bytes <= |m|
    ensures |Swapped(m[orig..orig + c], width)| == c
    ensures Swapped(m[orig..][..bytes], width)
         == Swapped(m[orig..orig + c], width) + Swapped(m[orig + c..][..bytes - c], width)
  {
    var b, rest := m[orig..orig + c], m[orig + c..][..bytes - c];
    var n := WholeCounts(b, width);
    SwappedConcat(b, rest, width, n);
    OneMorePiece(m, orig, c, bytes);
  }

  lemma OneMorePiece(m: seq<bv8>, orig: nat, c: nat, bytes: nat)
    requires c <= bytes && orig + bytes <= |m|
    ensures m[orig..][..bytes] == m[orig..orig + c] + m[orig + c..][..bytes - c]
  {
    var x, y := m[orig..][..bytes], m[orig..orig + c] + m[orig + c..][..bytes - c];
    assert |x| == |y| && forall i :: 0 <= i < |x| ==> x[i] == y[i];
  }

  /** The first step leaves the rest of the source as it was. */
  lemma RestUnread(m: seq<bv8>, orig: nat, target: nat, c: nat, width: nat, bytes: nat)
    requires IsPiece(c, width) && c <= bytes && orig + bytes <= |m| && target + bytes <= |m|
    requires Apart(orig, target, bytes) || bytes <= c
    requires |Swapped(m[orig..orig + c], width)| == c
    ensures Step(m, orig, target, c, width)[orig + c..][..bytes - c] == m[orig + c..][..bytes - c]
  {
    var next := Step(m, orig, target, c, width);
    if bytes > c {
      PutElsewhere(m, target, Swapped(m[orig..orig + c], width), orig + c, bytes - c);
      SliceFrom(m, orig + c, bytes - c);
      SliceFrom(next, orig + c, bytes - c);
    }
  }

  /** A run behind bytes that have been written already. */
  lemma RunBehind(m: seq<bv8>, orig: nat, target: nat, total: nat, w: seq<bv8>, c: nat, width: nat, bytes: nat)
    requires IsPiece(c, width) && Whole(bytes, c) && |w| + bytes <= total
    requires orig + total <= |m| && target + total <= |m|
    requires Apart(orig, target, total) || bytes == 0 || (w == [] && bytes <= c)
    ensures |Swapped(m[orig + |w|..][..bytes], width)| == bytes
    ensures EndOf(Put(m, target, w), orig + |w|, target + |w|, c, width, bytes)
         == Put(m, target, w + Swapped(m[orig + |w|..][..bytes], width))
  {
    Unread(m, orig, target, total, w, bytes);
    EndIs(Put(m, target, w), orig + |w|, target + |w|, c, width, bytes);
    PutMore(m, target, w, Swapped(m[orig + |w|..][..bytes], width));
  }

  lemma Unread(m: seq<bv8>, orig: nat, target: nat, total: nat, w: seq<bv8>, bytes: nat)
    requires orig + total <= |m| && target + total <= |m| && |w| + bytes <= total
    requires Apart(orig, target, total) || bytes == 0 || w == []
    ensures Put(m, target, w)[orig + |w|..][..bytes] == m[orig + |w|..][..bytes]
  {
    var now, k := Put(m, target, w), |w|;
    if w == [] {
      assert now == m;
    } else if bytes > 0 {
      PutElsewhere(m, target, w, orig + k, bytes);
      SliceFrom(m, orig + k, bytes);
      SliceFrom(now, orig + k, bytes);
    }
  }

  // ---------- Three runs ----------

  /**
   How a call that swaps n elements divides the bytes: so many by single elements, then so many by chunks
   of four in which the bytes of every width are turned round, and the rest by elements again.
   */
  datatype Parts = Parts(size: nat, first: nat, middle: nat, rest: nat, width: nat) {
    predicate Fits() {
      && 0 < size <= width && IsPiece(4 * size, width)
      && Whole(first, size) && Whole(middle, 4 * size) && Whole(rest, size)
    }

    function Total(): nat { first + middle + rest }

    /** All is done in a single step. */
    predicate OneStep() {
      || (first <= size && middle + rest == 0) || (first == 0 && middle <= 4 * size && rest == 0)
      || (first + middle == 0 && rest <= size)
    }
  }

  type Layout = l: Parts | l.Fits() witness Parts(1, 0, 0, 0, 1)

  ghost function LayoutRun(m: seq<bv8>, orig: nat, target: nat, l: Layout): (r: seq<bv8>)
    requires orig + l.Total() <= |m| && target + l.Total() <= |m|
    ensures |r| == |m|
  {
    var m1 := EndOf(m, orig, target, l.size, l.size, l.first);
    var m2 := EndOf(m1, orig + l.first, target + l.first, 4 * l.size, l.width, l.middle);
    EndOf(m2, orig + l.first + l.middle, target + l.first + l.middle, l.size, l.size, l.rest)
  }

  lemma EmptyLayout(m: seq<bv8>, orig: nat, target: nat, l: Layout)
    requires l.Total() == 0 && orig <= |m| && target <= |m|
    ensures LayoutRun(m, orig, target, l) == m
  {
    NothingLeft(m, orig, target, l.size, l.size);
    NothingLeft(m, orig, target, 4 * l.size, l.width);
  }

  /** What is written if all is read as it was: p bytes and the last ones by elements, mid in between by a width. */
  function Written(s: seq<bv8>, size: nat, p: nat, mid: nat, width: nat): seq<bv8>
    requires size > 0 && width > 0 && p + mid <= |s|
  {
    Swapped(s[..p], size) + Swapped(s[p..][..mid], width) + Swapped(s[p..][mid..], size)
  }

  function LayoutWritten(m: seq<bv8>, orig: nat, l: Layout): seq<bv8>
    requires orig + l.Total() <= |m|
  {
    Written(m[orig..][..l.Total()], l.size, l.first, l.middle, l.width)
  }

  lemma LayoutRunIs(m: seq<bv8>, orig: nat, target: nat, l: Layout)
    requires orig + l.Total() <= |m| && target + l.Total() <= |m|
    requires Apart(orig, target, l.Total()) || l.OneStep()
    ensures |LayoutWritten(m, orig, l)| == l.Total()
    ensures LayoutRun(m, orig, target, l) == Put(m, target, LayoutWritten(m, orig, l))
  {
    var w := FirstTwoAre(m, orig, target, l);
    RunBehind(m, orig, target, l.Total(), w, l.size, l.size, l.rest);
    WrittenIs(m, orig, l, w);
  }

  lemma FirstTwoAre(m: seq<bv8>, orig: nat, target: nat, l: Layout) returns (w: seq<bv8>)
    requires orig + l.Total() <= |m| && target + l.Total() <= |m|
    requires Apart(orig, target, l.Total()) || l.OneStep()
    ensures |w| == l.first + l.middle
    ensures w == Swapped(m[orig..][..l.first], l.size) + Swapped(m[orig + l.first..][..l.middle], l.width)
    ensures EndOf(EndOf(m, orig, target, l.size, l.size, l.first), orig + l.first, target + l.first,
                  4 * l.size, l.width, l.middle)
         == Put(m, target, w)
  {
    var a := Swapped(m[orig..][..l.first], l.size);
    FirstIs(m, orig, target, l);
    RunBehind(m, orig, target, l.Total(), a, 4 * l.size, l.width, l.middle);
    w := a + Swapped(m[orig + l.first..][..l.middle], l.width);
  }

  lemma FirstIs(m: seq<bv8>, orig: nat, target: nat, l: Layout)
    requires orig + l.Total() <= |m| && target + l.Total() <= |m|
    requires Apart(orig, target, l.Total()) || l.OneStep()
    ensures var a := Swapped(m[orig..][..l.first], l.size);
            |a| == l.first && EndOf(m, orig, target, l.size, l.size, l.first) == Put(m, target, a)
  {
    EndIs(m, orig, target, l.size, l.size, l.first);
  }

  lemma WrittenIs(m: seq<bv8>, orig: nat, l: Layout, w: seq<bv8>)
    requires orig + l.Total() <= |m| && |w| == l.first + l.middle
    requires w == Swapped(m[orig..][..l.first], l.size) + Swapped(m[orig + l.first..][..l.middle], l.width)
    ensures LayoutWritten(m, orig, l) == w + Swapped(m[orig + |w|..][..l.rest], l.size)
  {
    ThreeParts(m, orig, l.Total(), l.first, l.middle);
  }

  lemma ThreeParts(m: seq<bv8>, orig: nat, total: nat, k: nat, mid: nat)
    requires orig + total <= |m| && k + mid <= total
    ensures var s := m[orig..][..total];
            s[..k] == m[orig..][..k] && s[k..][..mid] == m[orig + k..][..mid]
            && s[k..][mid..] == m[orig + (k + mid)..][..total - k - mid]
  {
  }

  // ---------- When three runs swap every element ----------

  /** Every element of the source is swapped at the target, and all else is as it was. */
  ghost predicate LayoutIsRight(m: seq<bv8>, orig: nat, target: nat, l: Layout)
    requires orig + l.Total() <= |m| && target + l.Total() <= |m|
  {
    LayoutRun(m, orig, target, l) == Put(m, target, Swapped(m[orig..][..l.Total()], l.size))
  }

  /** It is so in every memory of this size. */
  ghost predicate AlwaysRight(size: nat, orig: nat, target: nat, l: Layout)
    requires orig + l.Total() <= size && target + l.Total() <= size
  {
    forall m: seq<bv8> {:trigger LayoutIsRight(m, orig, target, l)} :: |m| == size ==> LayoutIsRight(m, orig, target, l)
  }

  /**
   The runs are right for every memory exactly when the target is apart from the source, or everything is
   done in a single step; and the chunks turn round the elements, or there are none.
   */
  lemma LayoutIsRightIff(size: nat, orig: nat, target: nat, l: Layout)
    requires orig + l.Total() <= size && target + l.Total() <= size
    ensures AlwaysRight(size, orig, target, l)
            <==> (Apart(orig, target, l.Total()) || l.OneStep()) && (l.middle == 0 || l.width == l.size)
  {
    if !Apart(orig, target, l.Total()) && !l.OneStep() {
      var m := ClobberedFails(size, orig, target, l);
    } else if l.middle != 0 && l.width != l.size {
      var m := WrongWidthFails(size, orig, target, l);
    } else {
      forall m: seq<bv8> | |m| == size
        ensures LayoutIsRight(m, orig, target, l)
      {
        RightWidthIsRight(m, orig, target, l);
      }
    }
  }

  lemma RightIffSwapped(m: seq<bv8>, orig: nat, target: nat, l: Layout)
    requires orig + l.Total() <= |m| && target + l.Total() <= |m|
    requires Apart(orig, target, l.Total()) || l.OneStep()
    ensures LayoutIsRight(m, orig, target, l) <==> LayoutWritten(m, orig, l) == Swapped(m[orig..][..l.Total()], l.size)
  {
    LayoutRunIs(m, orig, target, l);
    TotalIsWhole(l);
    var n := WholeCounts(m[orig..][..l.Total()], l.size);
    PutSame(m, target, LayoutWritten(m, orig, l), Swapped(m[orig..][..l.Total()], l.size));
  }

  lemma TotalIsWhole(l: Layout)
    ensures Whole(l.middle, l.size) && Whole(l.Total(), l.size)
  {
    WholeTimes(4, l.size);
    WholeOfWhole(l.middle, 4 * l.size, l.size);
    WholeSum(l.first, l.middle, l.size);
    WholeSum(l.first + l.middle, l.rest, l.size);
  }

  lemma RightWidthIsRight(m: seq<bv8>, orig: nat, target: nat, l: Layout)
    requires orig + l.Total() <= |m| && target + l.Total() <= |m|
    requires Apart(orig, target, l.Total()) || l.OneStep()
    requires l.middle == 0 || l.width == l.size
    ensures LayoutIsRight(m, orig, target, l)
  {
    RightIffSwapped(m, orig, target, l);
    WrittenByElements(m[orig..][..l.Total()], l);
  }

  lemma WrittenByElements(s: seq<bv8>, l: Layout)
    requires |s| == l.Total() && (l.middle == 0 || l.width == l.size)
    ensures Written(s, l.size, l.first, l.middle, l.width) == Swapped(s, l.size)
  {
    TotalIsWhole(l);
    var p := WholeCounts(s[..l.first], l.size);
    var q := WholeCounts(s[l.first..][..l.middle], l.size);
    WrittenBySize(s, l.size, l.first, p, l.middle, q, l.width);
  }

  lemma WrittenBySize(s: seq<bv8>, size: nat, k: nat, p: nat, mid: nat, q: nat, width: nat)
    requires size > 0 && width > 0 && k + mid <= |s|
    requires Counts(s[..k], size, p) && Counts(s[k..][..mid], size, q)
    requires mid == 0 || width == size
    ensures Written(s, size, k, mid, width) == Swapped(s, size)
  {
    var rest := s[k..];
    var b := rest[..mid];
    SwappedSplit(s, size, k, p);
    SwappedSplit(rest, size, mid, q);
    SameWidth(b, size, width);
    Regroup(Swapped(s[..k], size), Swapped(b, size), Swapped(rest[mid..], size));
  }

  lemma SameWidth(b: seq<bv8>, size: nat, width: nat)
    requires size > 0 && width > 0 && (b == [] || width == size)
    ensures Swapped(b, width) == Swapped(b, size)
  {
  }

  lemma SwappedSplit(s: seq<bv8>, size: nat, k: nat, n: nat)
    requires size > 0 && k <= |s| && Counts(s[..k], size, n)
    ensures Swapped(s, size) == Swapped(s[..k], size) + Swapped(s[k..], size)
  {
    SwappedConcat(s[..k], s[k..], size, n);
    assert s == s[..k] + s[k..];
  }

  /** A memory of zeros but for a one where the chunks begin. */
  lemma WrongWidthFails(size: nat, orig: nat, target: nat, l: Layout) returns (m: seq<bv8>)
    requires orig + l.Total() <= size && target + l.Total() <= size
    requires Apart(orig, target, l.Total()) || l.OneStep()
    requires l.middle != 0 && l.width != l.size
    ensures |m| == size && !LayoutIsRight(m, orig, target, l)
  {
    m := OneAt(size, orig + l.first);
    RightIffSwapped(m, orig, target, l);
    OneInSlice(m, orig, l.Total(), l.first);
    WrittenOtherwise(m[orig..][..l.Total()], l);
  }

  lemma WrittenOtherwise(s: seq<bv8>, l: Layout)
    requires |s| == l.Total() && l.middle != 0 && l.width != l.size
    requires forall i :: 0 <= i < |s| ==> s[i] == if i == l.first then 1 else 0
    ensures Written(s, l.size, l.first, l.middle, l.width) != Swapped(s, l.size)
  {
    TotalIsWhole(l);
    WholeOfWhole(l.middle, 4 * l.size, l.width);
    var n := WholeIs(l.Total(), l.size);
    var p := WholeIs(l.first, l.size);
    if p >= n {
      TimesMonotone(l.size, n, p);
    }
    WrittenByWidth(s, l.size, l.first, p, n, l.middle, l.width);
  }

  function OneAt(size: nat, at: nat): (m: seq<bv8>)
    ensures |m| == size && forall i :: 0 <= i < |m| ==> m[i] == if i == at then 1 else 0
  {
    seq(size, i => if i == at then 1 else 0)
  }

  lemma OneInSlice(m: seq<bv8>, orig: nat, total: nat, k: nat)
    requires orig + total <= |m|
    requires forall i :: 0 <= i < |m| ==> m[i] == if i == orig + k then 1 else 0
    ensures var s := m[orig..][..total]; forall i :: 0 <= i < |s| ==> s[i] == if i == k then 1 else 0
  {
  }

  lemma WrittenByWidth(s: seq<bv8>, size: nat, k: nat, p: nat, n: nat, mid: nat, width: nat)
    requires 0 < size < width && k == p * size && k + mid <= |s| && |s| == n * size && p < n
    requires mid > 0 && Whole(mid, width)
    requires forall i :: 0 <= i < |s| ==> s[i] == if i == k then 1 else 0
    ensures Written(s, size, k, mid, width) != Swapped(s, size)
  {
    CountsLength(s, size, n);
    SwappedAt(s, size, n, p, k, size - 1);
    var a, b, c := Swapped(s[..k], size), Swapped(s[k..][..mid], width), Swapped(s[k..][mid..], size);
    CountsLength(s[..k], size, p);
    SwappedLength(s[..k], size, p);
    ZeroThere(s, k, mid, size, width);
    IndexInMiddle(a, b, c, size - 1);
  }

  lemma ZeroThere(s: seq<bv8>, k: nat, mid: nat, size: nat, width: nat)
    requires 0 < size < width && k + mid <= |s| && mid > 0 && Whole(mid, width)
    requires forall i :: 0 <= i < |s| ==> s[i] == if i == k then 1 else 0
    ensures var b := Swapped(s[k..][..mid], width); size <= |b| && b[size - 1] == 0
  {
    var b := s[k..][..mid];
    var n := WholeCounts(b, width);
    SwappedAt(b, width, n, 0, 0, size - 1);
    assert b[width - size] == s[k + (width - size)];
  }

  lemma IndexInMiddle(a: seq<bv8>, b: seq<bv8>, c: seq<bv8>, i: nat)
    requires i < |b|
    ensures (a + b + c)[|a| + i] == b[i]
  {
  }

  // ---------- Pieces that are overwritten before they are read ----------

  predicate OnlyAt(m: seq<bv8>, x: nat) {
    forall i :: 0 <= i < |m| ==> m[i] == if i == x then 1 else 0
  }

  predicate AllZero(m: seq<bv8>) {
    forall i :: 0 <= i < |m| ==> m[i] == 0
  }

  lemma {:induction false} SwappedZeros(b: seq<bv8>, width: nat)
    requires width > 0 && AllZero(b)
    ensures AllZero(Swapped(b, width))
  {
    if |b| >= width {
      SwappedZeros(b[width..], width);
    }
  }

  lemma ZerosStep(m: seq<bv8>, orig: nat, target: nat, c: nat, width: nat)
    requires IsPiece(c, width) && orig + c <= |m| && target + c <= |m| && AllZero(m)
    ensures AllZero(Step(m, orig, target, c, width))
  {
    SwappedZeros(m[orig..orig + c], width);
  }

  lemma {:induction false} ZerosStay(m: seq<bv8>, orig: nat, target: nat, c: nat, width: nat, bytes: nat)
    requires IsPiece(c, width) && orig + bytes <= |m| && target + bytes <= |m| && AllZero(m)
    ensures AllZero(StepRun(m, orig, target, c, width, bytes))
    decreases bytes
  {
    if bytes >= c {
      ZerosStep(m, orig, target, c, width);
      ZerosStay(Step(m, orig, target, c, width), orig + c, target + c, c, width, bytes - c);
    }
  }

  lemma ZerosEnd(m: seq<bv8>, orig: nat, target: nat, c: nat, width: nat, bytes: nat)
    requires IsPiece(c, width) && orig + bytes <= |m| && target + bytes <= |m| && AllZero(m)
    ensures AllZero(EndOf(m, orig, target, c, width, bytes))
  {
    ZerosStay(m, orig, target, c, width, bytes);
    EndIsRun(m, orig, target, c, width, bytes);
  }

  /** The first step overwrites the one of the memory before it is read. */
  lemma Clobbered(m: seq<bv8>, orig: nat, target: nat, c: nat, width: nat, bytes: nat, x: nat)
    requires IsPiece(c, width) && c <= bytes && orig + bytes <= |m| && target + bytes <= |m|
    requires OnlyAt(m, x) && target <= x < target + c && !(orig <= x < orig + c)
    ensures AllZero(EndOf(m, orig, target, c, width, bytes))
  {
    ClobberedStep(m, orig, target, c, width, x);
    EndAfterStep(m, orig, target, c, width, bytes);
    ZerosEnd(Step(m, orig, target, c, width), orig + c, target + c, c, width, bytes - c);
  }

  lemma ClobberedStep(m: seq<bv8>, orig: nat, target: nat, c: nat, width: nat, x: nat)
    requires IsPiece(c, width) && orig + c <= |m| && target + c <= |m|
    requires OnlyAt(m, x) && target <= x < target + c && !(orig <= x < orig + c)
    ensures AllZero(Step(m, orig, target, c, width))
  {
    var n := WholeCounts(m[orig..orig + c], width);
    SwappedZeros(m[orig..orig + c], width);
    ZerosOverOne(m, target, Swapped(m[orig..orig + c], width), x);
  }

  lemma ZerosOverOne(m: seq<bv8>, at: nat, w: seq<bv8>, x: nat)
    requires at + |w| <= |m| && OnlyAt(m, x) && AllZero(w) && at <= x < at + |w|
    ensures AllZero(Put(m, at, w))
  {
  }

  /** A one in the source is a one somewhere in the target. */
  lemma OneShows(m: seq<bv8>, orig: nat, target: nat, size: nat, n: nat, x: nat)
    requires 0 < size && orig + n * size <= |m| && target + n * size <= |m|
    requires OnlyAt(m, x) && orig <= x < orig + n * size
    ensures !AllZero(Put(m, target, Swapped(m[orig..][..n * size], size)))
  {
    var s := m[orig..][..n * size];
    assert |s| == n * size && s[x - orig] == 1;
    var k := OneIsSwapped(s, size, n, x - orig);
    assert Put(m, target, Swapped(s, size))[target + k] == 1;
  }

  lemma OneIsSwapped(s: seq<bv8>, size: nat, n: nat, x: nat) returns (k: nat)
    requires 0 < size && |s| == n * size && x < |s| && s[x] == 1
    ensures k < |Swapped(s, size)| && Swapped(s, size)[k] == 1
  {
    var e, i := x / size, x % size;
    InElement(x, size, n);
    CountsLength(s, size, n);
    SwappedAt(s, size, n, e, e * size, size - 1 - i);
    k := e * size + (size - 1 - i);
  }

  lemma InElement(x: nat, size: nat, n: nat)
    requires size > 0 && x < n * size
    ensures x / size < n && x == x / size * size + x % size
  {
    if x / size >= n {
      TimesMonotone(size, n, x / size);
    }
  }

  lemma ClobberedFails(size: nat, orig: nat, target: nat, l: Layout) returns (m: seq<bv8>)
    requires orig + l.Total() <= size && target + l.Total() <= size
    requires !Apart(orig, target, l.Total()) && !l.OneStep()
    ensures |m| == size && !LayoutIsRight(m, orig, target, l)
  {
    var c := if l.first == 0 && l.middle > 0 then 4 * l.size else l.size;
    var x := if target < orig + c then orig + c else target;
    m := OneAt(size, x);
    FirstIsNotAll(l, c);
    ClobberedLayout(m, orig, target, l, c, x);
    OneShowsInTotal(m, orig, target, l, x);
  }

  lemma OneShowsInTotal(m: seq<bv8>, orig: nat, target: nat, l: Layout, x: nat)
    requires orig + l.Total() <= |m| && target + l.Total() <= |m|
    requires OnlyAt(m, x) && orig <= x < orig + l.Total()
    ensures !AllZero(Put(m, target, Swapped(m[orig..][..l.Total()], l.size)))
  {
    TotalIsWhole(l);
    var n := WholeIs(l.Total(), l.size);
    OneShows(m, orig, target, l.size, n, x);
  }

  lemma FirstIsNotAll(l: Layout, c: nat)
    requires !l.OneStep() && c == if l.first == 0 && l.middle > 0 then 4 * l.size else l.size
    ensures 0 < c < l.Total()
  {
  }

  lemma ClobberedLayout(m: seq<bv8>, orig: nat, target: nat, l: Layout, c: nat, x: nat)
    requires orig + l.Total() <= |m| && target + l.Total() <= |m| && l.Total() > 0
    requires c == if l.first == 0 && l.middle > 0 then 4 * l.size else l.size
    requires OnlyAt(m, x) && target <= x < target + c && !(orig <= x < orig + c)
    ensures AllZero(LayoutRun(m, orig, target, l))
  {
    var m1 := EndOf(m, orig, target, l.size, l.size, l.first);
    var m2 := EndOf(m1, orig + l.first, target + l.first, 4 * l.size, l.width, l.middle);
    if l.first > 0 {
      Clobbered(m, orig, target, l.size, l.size, l.first, x);
      ZerosEnd(m1, orig + l.first, target + l.first, 4 * l.size, l.width, l.middle);
      ZerosEnd(m2, orig + l.first + l.middle, target + l.first + l.middle, l.size, l.size, l.rest);
    } else if l.middle > 0 {
      NothingLeft(m, orig, target, l.size, l.size);
      Clobbered(m, orig, target, 4 * l.size, l.width, l.middle, x);
      ZerosEnd(m2, orig + l.middle, target + l.middle, l.size, l.size, l.rest);
    } else {
      NothingLeft(m, orig, target, l.size, l.size);
      NothingLeft(m, orig, target, 4 * l.size, l.width);
      Clobbered(m, orig, target, l.size, l.size, l.rest, x);
    }
  }
}
