/**
 swap_16 and swap_16_array of src/bitsstream/Endianness.cpp. The two halves of sixteen bytes are swapped
 one after the other, so that the first write may spoil what is read next.
 */
module Swap16 {
  import opened Wrappers
  import opened Elements
  import opened Memory
  import opened Steps
  import opened Endianness

  /** swap_16: the second half first. */
  method SwapElement16(mem: array<bv8>, orig: nat, target: nat, build: Build)
    requires orig + 16 <= mem.Length && target + 16 <= mem.Length
    modifies mem
    ensures mem[..] == Swap16Written(old(mem[..]), orig, target)
  {
    SwapHalf(mem, orig + 8, target, build);
    SwapHalf(mem, orig, target + 8, build);
  }

  /** swap_8, as far as it matters here. */
  method SwapHalf(mem: array<bv8>, orig: nat, target: nat, build: Build)
    requires orig + 8 <= mem.Length && target + 8 <= mem.Length
    modifies mem
    ensures mem[..] == Put(old(mem[..]), target, Reversed(old(mem[..])[orig..orig + 8]))
  {
    OnePiece(8);
    SwapElement(mem, orig, target, 8, build);
  }

  function Swap16Written(m: seq<bv8>, orig: nat, target: nat): (r: seq<bv8>)
    requires orig + 16 <= |m| && target + 16 <= |m|
    ensures |r| == |m|
  {
    var half := Put(m, target, Reversed(m[orig + 8..orig + 16]));
    Put(half, target + 8, Reversed(half[orig..orig + 8]))
  }

  /** The halves of 16 bytes change places when the whole is reversed. */
  lemma ReversedHalves(b: seq<bv8>)
    requires |b| == 16
    ensures Reversed(b) == Reversed(b[8..]) + Reversed(b[..8])
  {
  }

  lemma Swap16IsReversal(m: seq<bv8>, orig: nat, target: nat)
    requires orig + 16 <= |m| && target + 16 <= |m|
    requires target + 8 <= orig || orig + 8 <= target
    ensures Swap16Written(m, orig, target) == Put(m, target, Reversed(m[orig..orig + 16]))
  {
    var b := m[orig..orig + 16];
    ReversedHalves(b);
    assert b[8..] == m[orig + 8..orig + 16] && b[..8] == m[orig..orig + 8];
    PutElsewhere(m, target, Reversed(b[8..]), orig, 8);
    PutMore(m, target, Reversed(b[8..]), Reversed(b[..8]));
  }

  /** In place, swap_16 gives the reversed bytes exactly when they read the same both ways. */
  lemma Swap16InPlace(m: seq<bv8>, at: nat)
    requires at + 16 <= |m|
    ensures Swap16Written(m, at, at) == Put(m, at, Reversed(m[at..at + 16]))
            <==> m[at + 8..at + 16] == Reversed(m[at..at + 8])
  {
    var b := m[at..at + 16];
    var low, high := m[at..at + 8], m[at + 8..at + 16];
    ReversedHalves(b);
    assert b[8..] == high && b[..8] == low;
    var half := Put(m, at, Reversed(high));
    assert half[at..at + 8] == Reversed(high);
    assert Reversed(Reversed(high)) == high;
    var got, want := Swap16Written(m, at, at), Put(m, at, Reversed(b));
    assert got[at + 8..at + 16] == high;
    assert want[at + 8..at + 16] == Reversed(low);
    assert got[..at + 8] == want[..at + 8];
    assert got[at + 16..] == want[at + 16..];
    if high == Reversed(low) {
      assert got == got[..at + 8] + high + got[at + 16..];
      assert want == want[..at + 8] + high + want[at + 16..];
    }
  }

  /** One element after the other, whatever lies where. */
  function Swap16Run(m: seq<bv8>, orig: nat, target: nat, n: nat): (r: seq<bv8>)
    requires orig + 16 * n <= |m| && target + 16 * n <= |m|
    ensures |r| == |m|
    decreases n
  {
    if n == 0 then m else Swap16Run(Swap16Written(m, orig, target), orig + 16, target + 16, n - 1)
  }

  /** This is the memory that a run ends in; Look(0) takes it apart. */
  ghost predicate IsEnd16(r: seq<bv8>, m: seq<bv8>, orig: nat, target: nat, n: nat)
    requires orig + 16 * n <= |m| && target + 16 * n <= |m|
  {
    |r| == |m| && forall key {:trigger Look(key)} :: Look(key) ==> r == Swap16Run(m, orig, target, n)
  }

  /** The same as Swap16Run, for proofs that hand it on whole. */
  ghost function End16(m: seq<bv8>, orig: nat, target: nat, n: nat): (r: seq<bv8>)
    requires orig + 16 * n <= |m| && target + 16 * n <= |m|
    ensures |r| == |m|
  {
    assert IsEnd16(Swap16Run(m, orig, target, n), m, orig, target, n);
    var r :| IsEnd16(r, m, orig, target, n);
    r
  }

  lemma End16IsRun(m: seq<bv8>, orig: nat, target: nat, n: nat)
    requires orig + 16 * n <= |m| && target + 16 * n <= |m|
    ensures End16(m, orig, target, n) == Swap16Run(m, orig, target, n)
  {
    assert Look(0);
  }

  lemma End16AfterStep(m: seq<bv8>, orig: nat, target: nat, n: nat)
    requires n > 0 && orig + 16 * n <= |m| && target + 16 * n <= |m|
    ensures End16(m, orig, target, n) == End16(Swap16Written(m, orig, target), orig + 16, target + 16, n - 1)
  {
    assert Look(0);
  }

  lemma NothingLeft16(m: seq<bv8>, orig: nat, target: nat)
    requires orig <= |m| && target <= |m|
    ensures End16(m, orig, target, 0) == m
  {
    End16IsRun(m, orig, target, 0);
  }

  method Swap16Array(mem: array<bv8>, o: nat, t: nat, n: nat, build: Build)
    requires o + 16 * n <= mem.Length && t + 16 * n <= mem.Length
    modifies mem
    ensures mem[..] == End16(old(mem[..]), o, t, n)
  {
    var orig, target, end := o, t, o + 16 * n;
    ghost var left, goal := n, End16(mem[..], o, t, n);
    while orig < end
      invariant 0 <= left <= n && orig + 16 * left == end && target + 16 * left == t + 16 * n
      invariant End16(mem[..], orig, target, left) == goal
      decreases left
    {
      End16AfterStep(mem[..], orig, target, left);
      SwapElement16(mem, orig, target, build);
      orig, target, left := orig + 16, target + 16, left - 1;
    }
    NothingLeft16(mem[..], orig, target);
  }

  lemma FirstOf16(m: seq<bv8>, at: nat, n: nat)
    requires n > 0 && at + 16 * n <= |m|
    ensures var rest := m[at + 16..][..16 * (n - 1)];
            Swapped(m[at..][..16 * n], 16) == Reversed(m[at..at + 16]) + Swapped(rest, 16)
  {
    var s := m[at..][..16 * n];
    assert s[..16] == m[at..at + 16] && s[16..] == m[at + 16..][..16 * (n - 1)];
  }

  lemma {:induction false} Swapped16Length(s: seq<bv8>, n: nat)
    requires |s| == 16 * n
    ensures |Swapped(s, 16)| == 16 * n
  {
    if n > 0 {
      Swapped16Length(s[16..], n - 1);
    }
  }

  /**
   The target keeps eight bytes clear of the source on the low side, or lies behind its end; behind the
   first half of a single element, it may overlap the second, which has been read by then.
   */
  predicate ClearOf16(orig: nat, target: nat, n: nat) {
    n == 0 || target + 8 <= orig || orig + (if n == 1 then 8 else 16 * n) <= target
  }

  ghost predicate Run16IsRight(m: seq<bv8>, orig: nat, target: nat, n: nat)
    requires orig + 16 * n <= |m| && target + 16 * n <= |m|
  {
    End16(m, orig, target, n) == Put(m, target, Swapped(m[orig..][..16 * n], 16))
  }

  /** swap_16_array swaps every element, whatever the memory holds, exactly for these targets. */
  lemma Run16IsRightIff(size: nat, orig: nat, target: nat, n: nat)
    requires orig + 16 * n <= size && target + 16 * n <= size
    ensures (forall m: seq<bv8> {:trigger Run16IsRight(m, orig, target, n)} ::
               |m| == size ==> Run16IsRight(m, orig, target, n))
            <==> ClearOf16(orig, target, n)
  {
    if ClearOf16(orig, target, n) {
      forall m: seq<bv8> | |m| == size
        ensures Run16IsRight(m, orig, target, n)
      {
        End16Is(m, orig, target, n);
      }
    } else {
      var m := Clobbered16Fails(size, orig, target, n);
    }
  }

  /** A memory with a one at a place of the source that the first element overwrites before it is read. */
  lemma Clobbered16Fails(size: nat, orig: nat, target: nat, n: nat) returns (m: seq<bv8>)
    requires orig + 16 * n <= size && target + 16 * n <= size && !ClearOf16(orig, target, n)
    ensures |m| == size && !Run16IsRight(m, orig, target, n)
  {
    var x := if target < orig then orig else if target < orig + 8 || target >= orig + 16 then target else target + 8;
    m := OneAt(size, x);
    Clobbered16(m, orig, target, n, x);
    OneShows(m, orig, target, 16, n, x);
  }

  lemma Clobbered16(m: seq<bv8>, orig: nat, target: nat, n: nat, x: nat)
    requires n > 0 && orig + 16 * n <= |m| && target + 16 * n <= |m| && OnlyAt(m, x)
    requires target <= x < target + 16 && (orig <= x < orig + 16 ==> x < orig + 8 && x < target + 8)
    ensures AllZero(End16(m, orig, target, n))
  {
    ZerosWritten16(m, orig, target, x);
    End16AfterStep(m, orig, target, n);
    ZerosStay16(Swap16Written(m, orig, target), orig + 16, target + 16, n - 1);
  }

  /** The first write removes the one of the memory, or leaves it in the part that the second overwrites. */
  lemma ZerosWritten16(m: seq<bv8>, orig: nat, target: nat, x: nat)
    requires orig + 16 <= |m| && target + 16 <= |m| && OnlyAt(m, x)
    requires target <= x < target + 16 && (orig <= x < orig + 16 ==> x < orig + 8 && x < target + 8)
    ensures AllZero(Swap16Written(m, orig, target))
  {
    var high := m[orig + 8..orig + 16];
    assert AllZero(high);
    ReversedZeros(high);
    var half := Put(m, target, Reversed(high));
    var low := half[orig..orig + 8];
    forall i | 0 <= i < 8
      ensures low[i] == 0
    {
      assert low[i] == half[orig + i];
    }
    ReversedZeros(low);
  }

  lemma ReversedZeros(b: seq<bv8>)
    requires AllZero(b)
    ensures AllZero(Reversed(b))
  {
  }

  lemma ZerosStep16(m: seq<bv8>, orig: nat, target: nat)
    requires orig + 16 <= |m| && target + 16 <= |m| && AllZero(m)
    ensures AllZero(Swap16Written(m, orig, target))
  {
    ReversedZeros(m[orig + 8..orig + 16]);
    var half := Put(m, target, Reversed(m[orig + 8..orig + 16]));
    assert AllZero(half) && AllZero(half[orig..orig + 8]);
    ReversedZeros(half[orig..orig + 8]);
  }

  lemma {:induction false} ZerosStay16(m: seq<bv8>, orig: nat, target: nat, n: nat)
    requires orig + 16 * n <= |m| && target + 16 * n <= |m| && AllZero(m)
    ensures AllZero(End16(m, orig, target, n))
    decreases n
  {
    if n == 0 {
      NothingLeft16(m, orig, target);
    } else {
      End16AfterStep(m, orig, target, n);
      ZerosStep16(m, orig, target);
      ZerosStay16(Swap16Written(m, orig, target), orig + 16, target + 16, n - 1);
    }
  }

  /** Away from the source every element is swapped. */
  lemma {:induction false} End16Is(m: seq<bv8>, orig: nat, target: nat, n: nat)
    requires orig + 16 * n <= |m| && target + 16 * n <= |m| && ClearOf16(orig, target, n)
    ensures |Swapped(m[orig..][..16 * n], 16)| == 16 * n
    ensures End16(m, orig, target, n) == Put(m, target, Swapped(m[orig..][..16 * n], 16))
    decreases n
  {
    if n > 0 {
      var first, rest := Reversed(m[orig..orig + 16]), m[orig + 16..][..16 * (n - 1)];
      FirstApart(m, orig, target, n);
      End16Is(Put(m, target, first), orig + 16, target + 16, n - 1);
      PutMore(m, target, first, Swapped(rest, 16));
    } else {
      NothingLeft16(m, orig, target);
      assert Put(m, target, []) == m && m[orig..][..0] == [];
    }
  }

  lemma FirstApart(m: seq<bv8>, orig: nat, target: nat, n: nat)
    requires n > 0 && orig + 16 * n <= |m| && target + 16 * n <= |m| && ClearOf16(orig, target, n)
    ensures var first, rest := Reversed(m[orig..orig + 16]), m[orig + 16..][..16 * (n - 1)];
            && Put(m, target, first)[orig + 16..][..16 * (n - 1)] == rest
            && Swapped(m[orig..][..16 * n], 16) == first + Swapped(rest, 16)
            && End16(m, orig, target, n) == End16(Put(m, target, first), orig + 16, target + 16, n - 1)
  {
    var first := Reversed(m[orig..orig + 16]);
    Swap16IsReversal(m, orig, target);
    End16AfterStep(m, orig, target, n);
    FirstOf16(m, orig, n);
    if n > 1 {
      PutElsewhere(m, target, first, orig + 16, 16 * (n - 1));
      SliceFrom(m, orig + 16, 16 * (n - 1));
      SliceFrom(Put(m, target, first), orig + 16, 16 * (n - 1));
    }
  }

  /** The sixteen bytes read the same both ways. */
  predicate BothWays(m: seq<bv8>, at: nat)
    requires at + 16 <= |m|
  {
    m[at + 8..at + 16] == Reversed(m[at..at + 8])
  }

  predicate AllBothWays(m: seq<bv8>, at: nat, n: nat)
    requires at + 16 * n <= |m|
    decreases n
  {
    n == 0 || (BothWays(m, at) && AllBothWays(m, at + 16, n - 1))
  }

  /** In place every element is swapped exactly when each reads the same both ways. */
  lemma {:induction false} InPlace16Iff(m: seq<bv8>, at: nat, n: nat)
    requires at + 16 * n <= |m|
    ensures Run16IsRight(m, at, at, n) <==> AllBothWays(m, at, n)
    decreases n
  {
    if n > 0 {
      FirstInPlace(m, at, n);
      SwapsRest(m, at, n);
      InPlace16Iff(Swap16Written(m, at, at), at + 16, n - 1);
    } else {
      NothingLeft16(m, at, at);
      assert Put(m, at, []) == m;
    }
  }

  lemma SwapsRest(m: seq<bv8>, at: nat, n: nat)
    requires n > 0 && at + 16 * n <= |m|
    ensures Run16IsRight(m, at, at, n)
            <==> BothWays(m, at) && Run16IsRight(Swap16Written(m, at, at), at + 16, at + 16, n - 1)
  {
    var next := Swap16Written(m, at, at);
    var first, rest := Reversed(m[at..at + 16]), Swapped(m[at + 16..][..16 * (n - 1)], 16);
    FirstInPlace(m, at, n);
    End16AfterStep(m, at, at, n);
    RunKeeps(next, at + 16, n - 1);
    FirstOf16(m, at, n);
    Swapped16Length(m[at + 16..][..16 * (n - 1)], n - 1);
    InTwoParts(m, at, first, rest, next, End16(next, at + 16, at + 16, n - 1));
  }

  lemma FirstInPlace(m: seq<bv8>, at: nat, n: nat)
    requires n > 0 && at + 16 * n <= |m|
    ensures var next := Swap16Written(m, at, at);
            && next[..at] == m[..at] && next[at + 16..] == m[at + 16..]
            && (next == Put(m, at, Reversed(m[at..at + 16])) <==> BothWays(m, at))
            && AllBothWays(next, at + 16, n - 1) == AllBothWays(m, at + 16, n - 1)
  {
    var next := Swap16Written(m, at, at);
    assert next[at + 16..] == m[at + 16..];
    Swap16InPlace(m, at);
    SameBothWays(m, next, at + 16, n - 1);
  }

  lemma {:induction false} RunKeeps(m: seq<bv8>, at: nat, n: nat)
    requires at + 16 * n <= |m|
    ensures End16(m, at, at, n)[..at] == m[..at]
    decreases n
  {
    if n == 0 {
      NothingLeft16(m, at, at);
    } else {
      var next := Swap16Written(m, at, at);
      End16AfterStep(m, at, at, n);
      RunKeeps(next, at + 16, n - 1);
      assert next[..at] == m[..at];
      assert End16(m, at, at, n)[..at] == End16(next, at + 16, at + 16, n - 1)[..at + 16][..at];
    }
  }

  /** The result is right when the first element is, and the rest is for what the first leaves. */
  lemma InTwoParts(m: seq<bv8>, at: nat, first: seq<bv8>, rest: seq<bv8>, next: seq<bv8>, got: seq<bv8>)
    requires at + |first| + |rest| <= |m| == |next| == |got|
    requires next[..at] == m[..at] && next[at + |first|..] == m[at + |first|..]
    requires got[..at + |first|] == next[..at + |first|]
    ensures got == Put(m, at, first + rest) <==> next == Put(m, at, first) && got == Put(next, at + |first|, rest)
  {
    var mid := at + |first|;
    var want, one, two := Put(m, at, first + rest), Put(m, at, first), Put(next, mid, rest);
    assert want[..mid] == one[..mid] && want[mid..] == two[mid..] && two[..mid] == next[..mid]
        && one[mid..] == next[mid..];
    assert got == got[..mid] + got[mid..] && want == want[..mid] + want[mid..] && two == two[..mid] + two[mid..];
    assert next == next[..mid] + next[mid..] && one == one[..mid] + one[mid..];
  }

  lemma {:induction false} SameBothWays(m: seq<bv8>, next: seq<bv8>, at: nat, n: nat)
    requires at + 16 * n <= |m| == |next| && next[at..] == m[at..]
    ensures AllBothWays(next, at, n) == AllBothWays(m, at, n)
    decreases n
  {
    if n > 0 {
      assert next[at..at + 8] == next[at..][..8] == m[at..at + 8];
      assert next[at + 8..at + 16] == next[at..][8..16] == m[at + 8..at + 16];
      assert next[at + 16..] == next[at..][16..] == m[at + 16..];
      SameBothWays(m, next, at + 16, n - 1);
    }
  }

  // ---------- Twice ----------

  /** swap_16_array in place loses halves, so that a second call changes nothing more. */
  lemma Twice16(m: seq<bv8>, at: nat, n: nat)
    requires at + 16 * n <= |m|
    ensures var once := End16(m, at, at, n);
            End16(once, at, at, n) == once && (once == m <==> AllBothWays(m, at, n))
  {
    RunIsBothWays(m, at, n);
    BothWaysStay(End16(m, at, at, n), at, n);
    if AllBothWays(m, at, n) {
      BothWaysStay(m, at, n);
    }
  }

  lemma {:induction false} BothWaysStay(m: seq<bv8>, at: nat, n: nat)
    requires at + 16 * n <= |m| && AllBothWays(m, at, n)
    ensures End16(m, at, at, n) == m
    decreases n
  {
    if n == 0 {
      NothingLeft16(m, at, at);
    } else {
      End16AfterStep(m, at, at, n);
      OneStays(m, at);
      BothWaysStay(m, at + 16, n - 1);
    }
  }

  lemma OneStays(m: seq<bv8>, at: nat)
    requires at + 16 <= |m| && BothWays(m, at)
    ensures Swap16Written(m, at, at) == m
  {
    var low, high := m[at..at + 8], m[at + 8..at + 16];
    assert Reversed(high) == low;
    PutBack(m, at, low, low);
    PutBack(m, at + 8, high, high);
  }

  lemma {:induction false} RunIsBothWays(m: seq<bv8>, at: nat, n: nat)
    requires at + 16 * n <= |m|
    ensures AllBothWays(End16(m, at, at, n), at, n)
    decreases n
  {
    if n > 0 {
      var next, r := Swap16Written(m, at, at), End16(m, at, at, n);
      End16AfterStep(m, at, at, n);
      RunIsBothWays(next, at + 16, n - 1);
      RunKeeps(next, at + 16, n - 1);
      OneIsBothWays(m, at);
      SameHalves(next, r, at);
    }
  }

  lemma SameHalves(m: seq<bv8>, r: seq<bv8>, at: nat)
    requires at + 16 <= |m| == |r| && r[..at + 16] == m[..at + 16]
    ensures BothWays(r, at) == BothWays(m, at)
  {
    var x, y := r[..at + 16], m[..at + 16];
    assert r[at..at + 8] == x[at..at + 8] && m[at..at + 8] == y[at..at + 8];
    assert r[at + 8..at + 16] == x[at + 8..at + 16] && m[at + 8..at + 16] == y[at + 8..at + 16];
  }

  lemma OneIsBothWays(m: seq<bv8>, at: nat)
    requires at + 16 <= |m|
    ensures BothWays(Swap16Written(m, at, at), at)
  {
    var high := m[at + 8..at + 16];
    var half := Put(m, at, Reversed(high));
    assert half[at..at + 8] == Reversed(high);
    assert Reversed(Reversed(high)) == high;
    var next := Swap16Written(m, at, at);
    assert next[at..at + 8] == Reversed(high) && next[at + 8..at + 16] == high;
  }
}
