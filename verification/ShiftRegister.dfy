/**
 A linear feedback shift register, over any type of state with an exclusive-or. What the CRC
 proofs need of the 32-bit register is only the handful of laws collected in `Laws`; everything
 that holds for a whole run of data bits is derived from them here, once, without bit-vectors.
 */
module ShiftRegister {

  datatype Register<!S> = Register(
    clock: S -> S,          // one shift with feedback
    xor: (S, S) -> S,
    zero: S,
    one: S,                 // the state with only the low bit set
    odd: S -> bool,         // the low bit
    half: S -> S)           // the plain shift, without feedback

  ghost predicate Laws<S(!new)>(g: Register<S>) {
    XorGroup(g) && Linear(g) && ZeroIsFixed(g) && PlainWhenEven(g) && LowBitSplits(g)
  }

  ghost predicate XorGroup<S(!new)>(g: Register<S>) {
    && (forall x, y :: Commutes(g, x, y))
    && (forall x, y, z :: Associates(g, x, y, z))
    && (forall x :: g.xor(x, g.zero) == x)
    && (forall x :: g.xor(x, x) == g.zero)
  }

  ghost predicate Commutes<S>(g: Register<S>, x: S, y: S) {
    g.xor(x, y) == g.xor(y, x)
  }

  ghost predicate Associates<S>(g: Register<S>, x: S, y: S, z: S) {
    g.xor(g.xor(x, y), z) == g.xor(x, g.xor(y, z))
  }

  ghost predicate Linear<S(!new)>(g: Register<S>) {
    forall x, y :: g.clock(g.xor(x, y)) == g.xor(g.clock(x), g.clock(y))
  }

  ghost predicate ZeroIsFixed<S(!new)>(g: Register<S>) {
    forall x :: g.clock(x) == g.zero ==> x == g.zero
  }

  ghost predicate PlainWhenEven<S(!new)>(g: Register<S>) {
    forall x :: !g.odd(x) ==> g.clock(x) == g.half(x)
  }

  ghost predicate LowBitSplits<S(!new)>(g: Register<S>) {
    forall x :: g.odd(x) ==> !g.odd(g.xor(x, g.one)) && g.half(g.xor(x, g.one)) == g.half(x)
  }

  function Feed<S>(g: Register<S>, r: S, bit: bool): S {
    if bit then g.xor(r, g.one) else r
  }

  /** The register after clocking in data bits, in order. */
  function Run<S>(g: Register<S>, r: S, bits: seq<bool>): S
    decreases |bits|
  {
    if bits == [] then r else Run(g, g.clock(Feed(g, r, bits[0])), bits[1..])
  }

  /** n clocks with no data. */
  function Idle<S>(g: Register<S>, r: S, n: nat): S
    decreases n
  {
    if n == 0 then r else Idle(g, g.clock(r), n - 1)
  }

  /** n plain shifts. */
  function Drop<S>(g: Register<S>, w: S, n: nat): S
    decreases n
  {
    if n == 0 then w else Drop(g, g.half(w), n - 1)
  }

  /** The n low bits of w, from the bottom. */
  function LowBits<S>(g: Register<S>, w: S, n: nat): (bits: seq<bool>)
    ensures |bits| == n
    decreases n
  {
    if n == 0 then [] else [g.odd(w)] + LowBits(g, g.half(w), n - 1)
  }

  function XorBits(a: seq<bool>, b: seq<bool>): (c: seq<bool>)
    requires |a| == |b|
    ensures |c| == |a|
  {
    seq(|a|, i requires 0 <= i < |a| => a[i] != b[i])
  }

  // ---------- Runs ----------

  lemma {:induction false} RunConcatenation<S>(g: Register<S>, r: S, a: seq<bool>, b: seq<bool>)
    ensures Run(g, r, a + b) == Run(g, Run(g, r, a), b)
    decreases |a|
  {
    if a == [] {
      assert a + b == b;
    } else {
      assert (a + b)[0] == a[0] && (a + b)[1..] == a[1..] + b;
      RunConcatenation(g, g.clock(Feed(g, r, a[0])), a[1..], b);
    }
  }

  // ---------- What the laws say about one clock ----------

  /** The consequences of the laws that the proofs about runs use. */
  ghost predicate ClockLaws<S(!new)>(g: Register<S>) {
    && g.clock(g.zero) == g.zero
    && (forall x :: g.clock(x) == g.zero ==> x == g.zero)
    && g.xor(g.zero, g.one) == g.one
    && (forall x :: g.xor(x, x) == g.zero && g.xor(x, g.zero) == x)
    && FeedsXor(g)
    && TakesBits(g)
  }

  ghost predicate FeedsXor<S(!new)>(g: Register<S>) {
    forall r, s, a, b ::
      g.clock(Feed(g, g.xor(r, s), a != b)) == g.xor(g.clock(Feed(g, r, a)), g.clock(Feed(g, s, b)))
  }

  /** One bit of w taken in as data leaves half of w outside. */
  ghost predicate TakesBits<S(!new)>(g: Register<S>) {
    forall r, w :: g.xor(g.clock(Feed(g, r, g.odd(w))), g.half(w)) == g.clock(g.xor(r, w))
  }

  lemma LawsOfOneClock<S(!new)>(g: Register<S>)
    requires Laws(g)
    ensures ClockLaws(g)
  {
    ClockZero(g);
    OneAgainstZero(g);
    LawsFeedXor(g);
    LawsTakeBits(g);
  }

  lemma OneAgainstZero<S(!new)>(g: Register<S>)
    requires XorGroup(g)
    ensures g.xor(g.zero, g.one) == g.one
  {
    assert Commutes(g, g.one, g.zero);
  }

  lemma LawsFeedXor<S(!new)>(g: Register<S>)
    requires XorGroup(g) && Linear(g)
    ensures FeedsXor(g)
  {
    forall r, s, a, b
      ensures g.clock(Feed(g, g.xor(r, s), a != b)) == g.xor(g.clock(Feed(g, r, a)), g.clock(Feed(g, s, b)))
    {
      FeedXor(g, r, s, a, b);
    }
  }

  lemma LawsTakeBits<S(!new)>(g: Register<S>)
    requires Laws(g)
    ensures TakesBits(g)
  {
    forall r, w
      ensures g.xor(g.clock(Feed(g, r, g.odd(w))), g.half(w)) == g.clock(g.xor(r, w))
    {
      TakeBit(g, r, w);
    }
  }

  lemma ClockZero<S(!new)>(g: Register<S>)
    requires Laws(g)
    ensures g.clock(g.zero) == g.zero
  {
    assert g.xor(g.zero, g.zero) == g.zero;
    assert g.xor(g.clock(g.zero), g.clock(g.zero)) == g.zero;
  }

  lemma CancelBoth<S(!new)>(g: Register<S>, r: S, s: S, e: S)
    requires XorGroup(g)
    ensures g.xor(g.xor(r, e), g.xor(s, e)) == g.xor(r, s)
    ensures g.xor(g.xor(r, e), s) == g.xor(g.xor(r, s), e)
    ensures g.xor(r, g.xor(s, e)) == g.xor(g.xor(r, s), e)
  {
    assert Associates(g, r, e, g.xor(s, e)) && Commutes(g, s, e) && Associates(g, e, e, s);
    assert g.xor(g.xor(e, e), s) == s by {
      assert Commutes(g, g.zero, s);
    }
    assert Associates(g, r, e, s) && Associates(g, r, s, e);
  }

  lemma FeedXor<S(!new)>(g: Register<S>, r: S, s: S, a: bool, b: bool)
    requires XorGroup(g)
    ensures Feed(g, g.xor(r, s), a != b) == g.xor(Feed(g, r, a), Feed(g, s, b))
  {
    CancelBoth(g, r, s, g.one);
  }

  lemma TakeBit<S(!new)>(g: Register<S>, r: S, w: S)
    requires Laws(g)
    ensures g.xor(g.clock(Feed(g, r, g.odd(w))), g.half(w)) == g.clock(g.xor(r, w))
  {
    CancelBoth(g, r, w, g.one);
    TakeBitLinear(g, r, w);
  }

  lemma TakeBitLinear<S(!new)>(g: Register<S>, r: S, w: S)
    requires Linear(g) && PlainWhenEven(g) && LowBitSplits(g)
    requires g.xor(g.xor(r, g.one), g.xor(w, g.one)) == g.xor(r, w)
    ensures g.xor(g.clock(Feed(g, r, g.odd(w))), g.half(w)) == g.clock(g.xor(r, w))
  {
  }

  // ---------- Whole runs ----------

  /** A run is linear in the register and the data together. */
  lemma {:induction false} RunXor<S(!new)>(g: Register<S>, r: S, s: S, a: seq<bool>, b: seq<bool>)
    requires ClockLaws(g) && |a| == |b|
    ensures Run(g, g.xor(r, s), XorBits(a, b)) == g.xor(Run(g, r, a), Run(g, s, b))
    decreases |a|
  {
    if a != [] {
      var c := XorBits(a, b);
      assert c[1..] == XorBits(a[1..], b[1..]);
      RunXor(g, g.clock(Feed(g, r, a[0])), g.clock(Feed(g, s, b[0])), a[1..], b[1..]);
    }
  }

  lemma RunAffine<S(!new)>(g: Register<S>, r: S, a: seq<bool>, b: seq<bool>, c: seq<bool>)
    requires ClockLaws(g) && |a| == |b| == |c| && g.xor(g.xor(r, r), r) == r
    ensures Run(g, r, XorBits(XorBits(a, b), c)) == g.xor(g.xor(Run(g, r, a), Run(g, r, b)), Run(g, r, c))
  {
    RunXor(g, r, r, a, b);
    RunXor(g, g.xor(r, r), r, XorBits(a, b), c);
  }

  /** Clocking zeros can neither create nor destroy a non-zero register. */
  lemma {:induction false} RunZeros<S(!new)>(g: Register<S>, r: S, bits: seq<bool>)
    requires ClockLaws(g)
    requires forall i :: 0 <= i < |bits| ==> !bits[i]
    ensures Run(g, r, bits) == g.zero <==> r == g.zero
    ensures Run(g, r, bits) == Idle(g, r, |bits|)
    decreases |bits|
  {
    if bits != [] {
      RunZeros(g, g.clock(r), bits[1..]);
    }
  }

  /**
   Clocking the n low bits of w in as data, or xoring w into the register first and then idling,
   comes to the same, except that the rest of w is left, n places lower, in the second.
   */
  lemma {:induction false} RunWord<S(!new)>(g: Register<S>, r: S, w: S, n: nat)
    requires ClockLaws(g)
    ensures g.xor(Run(g, r, LowBits(g, w, n)), Drop(g, w, n)) == Idle(g, g.xor(r, w), n)
    decreases n
  {
    if n > 0 {
      var bits := LowBits(g, w, n);
      assert bits[0] == g.odd(w) && bits[1..] == LowBits(g, g.half(w), n - 1);
      RunWord(g, g.clock(Feed(g, r, g.odd(w))), g.half(w), n - 1);
    }
  }

  lemma {:induction false} DropLast<S>(g: Register<S>, w: S, n: nat)
    ensures Drop(g, w, n + 1) == g.half(Drop(g, w, n))
    decreases n
  {
    if n > 0 {
      DropLast(g, g.half(w), n - 1);
    }
  }

  lemma {:induction false} LowBitAt<S>(g: Register<S>, w: S, n: nat, j: nat)
    requires j < n
    ensures LowBits(g, w, n)[j] == g.odd(Drop(g, w, j))
    decreases n
  {
    if j > 0 {
      LowBitAt(g, g.half(w), n - 1, j - 1);
    }
  }

  /**
   One word of n data bits against a register split in a low part, on which the feedback depends
   during those n clocks, and a high part, which only moves down: the step a look-up table performs.
   */
  lemma RunBySplitting<S(!new)>(g: Register<S>, r: S, w: S, low: S, high: S, n: nat)
    requires ClockLaws(g)
    requires g.xor(r, w) == g.xor(low, high)
    requires Drop(g, w, n) == g.zero
    requires forall i :: 0 <= i < n ==> !LowBits(g, high, n)[i]
    ensures Run(g, r, LowBits(g, w, n)) == g.xor(Idle(g, low, n), Drop(g, high, n))
  {
    RunWord(g, r, w, n);
    RunWord(g, low, high, n);
    RunZeros(g, low, LowBits(g, high, n));
  }

  // ---------- Bursts ----------

  /** Some state of progress that each clock advances, whatever the data, for `limit` clocks. */
  ghost predicate Advances<S(!new)>(g: Register<S>, live: (S, nat) -> bool, limit: nat) {
    forall r, bit, k :: 0 <= k < limit && live(r, k) ==> live(g.clock(Feed(g, r, bit)), k + 1)
  }

  lemma {:induction false} RunAdvances<S(!new)>(g: Register<S>, live: (S, nat) -> bool, limit: nat, r: S,
      bits: seq<bool>, k: nat)
    requires Advances(g, live, limit)
    requires live(r, k) && k + |bits| <= limit
    ensures live(Run(g, r, bits), k + |bits|)
    decreases |bits|
  {
    if bits != [] {
      RunAdvances(g, live, limit, g.clock(Feed(g, r, bits[0])), bits[1..], k + 1);
    }
  }

  /** The positions of all differences lie in a window of so many consecutive bits. */
  ghost predicate DifferWithin(a: seq<bool>, b: seq<bool>, start: nat, window: nat)
    requires |a| == |b|
  {
    forall i :: 0 <= i < |a| && a[i] != b[i] ==> start <= i < start + window
  }

  /**
   If one set bit makes the register live, and being live for up to `window` clocks keeps it from
   zero, then two runs over data that differs only within `window` bits end in different registers.
   */
  lemma BurstSeparates<S(!new)>(g: Register<S>, live: (S, nat) -> bool, window: nat, r: S, a: seq<bool>,
      b: seq<bool>, start: nat)
    requires ClockLaws(g) && Advances(g, live, window)
    requires live(g.clock(g.one), 1) && forall k :: 0 <= k <= window ==> !live(g.zero, k)
    requires |a| == |b| && a != b && DifferWithin(a, b, start, window)
    ensures Run(g, r, a) != Run(g, r, b)
  {
    var first := FirstDifference(a, b);
    var d := XorBits(a, b);
    forall i | 0 <= i < |d| && d[i]
      ensures first <= i < first + window
    {
      assert !(i < first);
    }
    BurstLeavesNonZero(g, live, window, d, first);
    RunXor(g, r, r, a, b);
  }

  /** Data whose set bits lie within `window` of the first one never brings a zero register back to zero. */
  lemma BurstLeavesNonZero<S(!new)>(g: Register<S>, live: (S, nat) -> bool, window: nat, d: seq<bool>, first: nat)
    requires ClockLaws(g) && Advances(g, live, window)
    requires live(g.clock(g.one), 1) && forall k :: 0 <= k <= window ==> !live(g.zero, k)
    requires first < |d| && d[first]
    requires forall i :: 0 <= i < |d| && d[i] ==> first <= i < first + window
    ensures Run(g, g.zero, d) != g.zero
  {
    var end := if first + window < |d| then first + window else |d|;
    var before, burst, after := d[..first], d[first..end], d[end..];
    assert d == before + (burst + after);
    RunConcatenation(g, g.zero, before, burst + after);
    RunConcatenation(g, g.zero, burst, after);
    RunZeros(g, g.zero, before);
    RunZeros(g, Run(g, g.zero, burst), after);
    BurstLives(g, live, window, burst);
  }

  lemma BurstLives<S(!new)>(g: Register<S>, live: (S, nat) -> bool, window: nat, burst: seq<bool>)
    requires ClockLaws(g) && Advances(g, live, window)
    requires live(g.clock(g.one), 1) && 0 < |burst| <= window && burst[0]
    ensures live(Run(g, g.zero, burst), |burst|)
  {
    RunAdvances(g, live, window, g.clock(g.one), burst[1..], 1);
  }

  lemma FirstDifference(a: seq<bool>, b: seq<bool>) returns (i: nat)
    requires |a| == |b| && a != b
    ensures i < |a| && a[i] != b[i] && forall j :: 0 <= j < i ==> a[j] == b[j]
  {
    var m :| 0 <= m < |a| && a[m] != b[m];
    i := 0;
    while a[i] == b[i]
      invariant i <= m && forall j :: 0 <= j < i ==> a[j] == b[j]
      decreases m - i
    {
      i := i + 1;
    }
  }
}
