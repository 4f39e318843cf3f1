/**
 The generators of a test: each is registered where it is first evaluated, and has an index below its
 size; advancing them all is a counter whose digits have different bases. A composite generator indexes
 the concatenation of its parts.
 */
module Generators {
  import opened Wrappers
  import opened Arithmetic

  // ---------- The counter, as a specification ----------

  /** Index tuples within the sizes. */
  predicate InRange(sizes: seq<nat>, at: seq<nat>) {
    |at| == |sizes| && forall i :: 0 <= i < |sizes| ==> at[i] < sizes[i]
  }

  function Product(sizes: seq<nat>): nat {
    if sizes == [] then 1 else sizes[0] * Product(sizes[1..])
  }

  /** The number an index tuple stands for, the first generator being the fastest digit. */
  function Number(sizes: seq<nat>, at: seq<nat>): nat
    requires |at| == |sizes|
  {
    if sizes == [] then 0 else at[0] + sizes[0] * Number(sizes[1..], at[1..])
  }

  /** The tuple that stands for a number. */
  function Tuple(sizes: seq<nat>, n: nat): (at: seq<nat>)
    requires forall i :: 0 <= i < |sizes| ==> sizes[i] >= 1
    ensures InRange(sizes, at)
  {
    if sizes == [] then [] else [n % sizes[0]] + Tuple(sizes[1..], n / sizes[0])
  }

  /** One advance: the first index that does not wrap moves on, those before it go back to zero. */
  function Advance(sizes: seq<nat>, at: seq<nat>): (r: (seq<nat>, bool))
    requires InRange(sizes, at)
    ensures InRange(sizes, r.0)
  {
    if sizes == [] then (at, false)
    else if at[0] + 1 < sizes[0] then ([at[0] + 1] + at[1..], true)
    else
      var (rest, more) := Advance(sizes[1..], at[1..]);
      ([0] + rest, more)
  }

  lemma {:induction false} NumberInRange(sizes: seq<nat>, at: seq<nat>)
    requires InRange(sizes, at)
    ensures Number(sizes, at) < Product(sizes)
  {
    if sizes != [] {
      NumberInRange(sizes[1..], at[1..]);
      Carry(at[0], sizes[0], Number(sizes[1..], at[1..]), Product(sizes[1..]));
    }
  }

  lemma Carry(low: nat, base: nat, high: nat, limit: nat)
    requires low < base && high < limit
    ensures low + base * high < base * limit
    ensures low + 1 == base ==> low + base * high + 1 == base * (high + 1)
  {
    assert base * (high + 1) <= base * limit;
  }

  /** Advancing adds one, and reports false exactly when it wraps around to all zeros. */
  lemma {:induction false} AdvanceCounts(sizes: seq<nat>, at: seq<nat>)
    requires InRange(sizes, at)
    ensures var (next, more) := Advance(sizes, at);
            var n := Number(sizes, at) + 1;
            && (more <==> n < Product(sizes))
            && Number(sizes, next) == (if more then n else 0)
            && (!more ==> forall i :: 0 <= i < |next| ==> next[i] == 0)
  {
    if sizes == [] {
    } else if at[0] + 1 < sizes[0] {
      var (next, more) := Advance(sizes, at);
      assert next[1..] == at[1..];
      NumberInRange(sizes[1..], at[1..]);
      Carry(at[0] + 1, sizes[0], Number(sizes[1..], at[1..]), Product(sizes[1..]));
    } else {
      var (rest, more) := Advance(sizes[1..], at[1..]);
      var high, limit := Number(sizes[1..], at[1..]), Product(sizes[1..]);
      AdvanceCounts(sizes[1..], at[1..]);
      NumberInRange(sizes[1..], at[1..]);
      Carry(at[0], sizes[0], high, limit);
      assert ([0] + rest)[1..] == rest;
      if more {
        Carry(0, sizes[0], high + 1, limit);
      } else {
        assert high + 1 == limit;
      }
    }
  }

  /** Tuples and the numbers below the product are in bijection. */
  lemma {:induction false} TupleOfNumber(sizes: seq<nat>, at: seq<nat>)
    requires InRange(sizes, at)
    ensures (forall i :: 0 <= i < |sizes| ==> sizes[i] >= 1) && Tuple(sizes, Number(sizes, at)) == at
  {
    if sizes != [] {
      TupleOfNumber(sizes[1..], at[1..]);
      Remainder(Number(sizes, at), sizes[0], Number(sizes[1..], at[1..]), at[0]);
      assert at == [at[0]] + at[1..];
    }
  }

  lemma QuotientBelow(n: nat, base: nat, limit: nat)
    requires base > 0 && n < base * limit
    ensures n / base < limit
  {
    if n / base >= limit {
      TimesMonotone(base, limit, n / base);
    }
  }

  lemma {:induction false} NumberOfTuple(sizes: seq<nat>, n: nat)
    requires forall i :: 0 <= i < |sizes| ==> sizes[i] >= 1
    requires n < Product(sizes)
    ensures Number(sizes, Tuple(sizes, n)) == n
  {
    if sizes != [] {
      var base, rest := sizes[0], Product(sizes[1..]);
      QuotientBelow(n, base, rest);
      NumberOfTuple(sizes[1..], n / base);
      assert Tuple(sizes, n)[1..] == Tuple(sizes[1..], n / base);
    }
  }

  /** The first generator is the fastest: generator i moves on once in as many passes as those before it have tuples. */
  lemma {:induction false} TupleAt(sizes: seq<nat>, n: nat, i: nat)
    requires (forall k :: 0 <= k < |sizes| ==> sizes[k] >= 1) && i < |sizes|
    ensures Product(sizes[..i]) >= 1 && Tuple(sizes, n)[i] == n / Product(sizes[..i]) % sizes[i]
    decreases i
  {
    ProductPositive(sizes[..i]);
    if i == 0 {
      assert sizes[..0] == [] && n / 1 == n;
    } else {
      assert sizes[..i][1..] == sizes[1..][..i - 1];
      TupleAt(sizes[1..], n / sizes[0], i - 1);
      DivideTwice(n, sizes[0], Product(sizes[1..][..i - 1]));
    }
  }

  lemma DivideTwice(n: nat, a: nat, b: nat)
    requires a >= 1 && b >= 1
    ensures a * b >= 1 && n / (a * b) == n / a / b
  {
    var m := n / a;
    Quotient(n, a);
    Quotient(m, b);
    TwoDigits(n, a, b, m, m / b, m % b, n % a);
  }

  lemma Quotient(n: nat, a: nat)
    requires a >= 1
    ensures n == a * (n / a) + n % a && n % a < a
  {
  }

  lemma TwoDigits(n: nat, a: nat, b: nat, m: nat, q: nat, high: nat, low: nat)
    requires n == a * m + low && m == b * q + high && high < b && low < a
    ensures a * b >= 1 && n / (a * b) == q
  {
    TimesMonotone(a, high + 1, b);
    TimesMonotone(a, high, high + 1);
    Spread(a, b, q, high);
    Remainder(n, a * b, q, a * high + low);
  }

  lemma Spread(a: nat, b: nat, q: nat, high: nat)
    ensures a * (b * q + high) == a * b * q + a * high
  {
  }

  /** The tuple reached by k advances from all zeros. */
  function AfterAdvances(sizes: seq<nat>, k: nat): (at: seq<nat>)
    requires forall i :: 0 <= i < |sizes| ==> sizes[i] >= 1
    ensures InRange(sizes, at)
  {
    if k == 0 then Tuple(sizes, 0) else Advance(sizes, AfterAdvances(sizes, k - 1)).0
  }

  /**
   Over the first product-many states every tuple occurs, once: state k is the tuple of k, so the
   state equal to a given tuple is the one whose number it is, and no other.
   */
  lemma {:induction false} VisitsEveryTupleOnce(sizes: seq<nat>, at: seq<nat>, k: nat)
    requires InRange(sizes, at) && k < Product(sizes)
    ensures (forall i :: 0 <= i < |sizes| ==> sizes[i] >= 1)
    ensures AfterAdvances(sizes, k) == Tuple(sizes, k)
    ensures AfterAdvances(sizes, k) == at <==> k == Number(sizes, at)
  {
    TupleOfNumber(sizes, at);
    StateIsTuple(sizes, k);
    NumberOfTuple(sizes, k);
  }

  lemma {:induction false} ZerosAreTupleZero(sizes: seq<nat>, at: seq<nat>)
    requires InRange(sizes, at) && forall i :: 0 <= i < |at| ==> at[i] == 0
    ensures (forall i :: 0 <= i < |sizes| ==> sizes[i] >= 1) && at == Tuple(sizes, 0)
  {
    if sizes != [] {
      ZerosAreTupleZero(sizes[1..], at[1..]);
      assert at == [0] + at[1..];
    }
  }

  lemma {:induction false} TupleOfZero(sizes: seq<nat>)
    requires forall i :: 0 <= i < |sizes| ==> sizes[i] >= 1
    ensures forall i :: 0 <= i < |sizes| ==> Tuple(sizes, 0)[i] == 0
  {
    if sizes != [] {
      TupleOfZero(sizes[1..]);
    }
  }

  lemma {:induction false} StateIsTuple(sizes: seq<nat>, k: nat)
    requires forall i :: 0 <= i < |sizes| ==> sizes[i] >= 1
    requires k < Product(sizes)
    ensures AfterAdvances(sizes, k) == Tuple(sizes, k)
  {
    if k > 0 {
      StateIsTuple(sizes, k - 1);
      StateNext(sizes, k - 1, AfterAdvances(sizes, k - 1));
    }
  }

  lemma StateNext(sizes: seq<nat>, n: nat, at: seq<nat>)
    requires (forall i :: 0 <= i < |sizes| ==> sizes[i] >= 1) && n + 1 < Product(sizes) && at == Tuple(sizes, n)
    ensures Advance(sizes, at).0 == Tuple(sizes, n + 1)
  {
    CounterStep(sizes, n);
  }

  /** From the tuple of n, an advance leads to that of n + 1, or back to that of zero after the last. */
  lemma CounterStep(sizes: seq<nat>, n: nat)
    requires forall i :: 0 <= i < |sizes| ==> sizes[i] >= 1
    requires n < Product(sizes)
    ensures Advance(sizes, Tuple(sizes, n)) ==
            (Tuple(sizes, if n + 1 < Product(sizes) then n + 1 else 0), n + 1 < Product(sizes))
  {
    var (next, more) := Advance(sizes, Tuple(sizes, n));
    AdvanceCounts(sizes, Tuple(sizes, n));
    NumberOfTuple(sizes, n);
    TupleOfNumber(sizes, next);
  }

  lemma {:induction false} ProductPositive(sizes: seq<nat>)
    requires forall i :: 0 <= i < |sizes| ==> sizes[i] >= 1
    ensures Product(sizes) >= 1
  {
    if sizes != [] {
      ProductPositive(sizes[1..]);
      TimesMonotone(sizes[0], 1, Product(sizes[1..]));
    }
  }

  // ---------- The program ----------

  class GeneratorInfo {
    const size: nat
    var currentIndex: nat

    constructor (size: nat)
      ensures this.size == size && currentIndex == 0
    {
      this.size, currentIndex := size, 0;
    }

    method MoveNext() returns (more: bool)
      modifies this
      ensures more <==> old(currentIndex) + 1 != size
      ensures currentIndex == if more then old(currentIndex) + 1 else 0
    {
      currentIndex := currentIndex + 1;
      if currentIndex == size {
        currentIndex := 0;
        return false;
      }
      return true;
    }
  }

  // ---------- Which generators a test registers ----------

  /** A generator where it is evaluated: its place in the source text, which is its name, and its size. */
  datatype Use = Use(fileInfo: string, size: nat)

  /** Where a name stands among the known generators, or their number. */
  function Place(known: seq<Use>, fileInfo: string): (p: nat)
    ensures p <= |known| && (p < |known| ==> known[p].fileInfo == fileInfo)
  {
    if known == [] then 0
    else if known[0].fileInfo == fileInfo then 0
    else 1 + Place(known[1..], fileInfo)
  }

  predicate Knows(known: seq<Use>, fileInfo: string) {
    Place(known, fileInfo) < |known|
  }

  /** The first evaluation under a name registers it, with the size it has there. */
  function Register(known: seq<Use>, use: Use): seq<Use> {
    if Knows(known, use.fileInfo) then known else known + [use]
  }

  function RegisterAll(known: seq<Use>, uses: seq<Use>): seq<Use> {
    if uses == [] then known else Register(RegisterAll(known, uses[..|uses| - 1]), uses[|uses| - 1])
  }

  function SizesOf(known: seq<Use>): (sizes: seq<nat>)
    ensures |sizes| == |known|
  {
    seq<nat>(|known|, i requires 0 <= i < |known| => known[i].size)
  }

  predicate Positive(uses: seq<Use>) {
    forall i :: 0 <= i < |uses| ==> uses[i].size >= 1
  }

  /** The index that a generator has at tuple number n; one that is not known would start at zero. */
  function IndexAt(known: seq<Use>, fileInfo: string, n: nat): nat
    requires Positive(known)
  {
    if Knows(known, fileInfo) then Tuple(SizesOf(known), n)[Place(known, fileInfo)] else 0
  }

  lemma {:induction false} PlaceOfLonger(known: seq<Use>, use: Use, name: string)
    ensures Place(known + [use], name)
         == if Knows(known, name) then Place(known, name) else if name == use.fileInfo then |known| else |known| + 1
  {
    if known == [] {
      assert known + [use] == [use];
    } else {
      assert (known + [use])[1..] == known[1..] + [use];
      PlaceOfLonger(known[1..], use, name);
    }
  }

  predicate AllKnown(known: seq<Use>, uses: seq<Use>) {
    forall i :: 0 <= i < |uses| ==> Knows(known, uses[i].fileInfo)
  }

  /** Evaluating what is known registers nothing. */
  lemma {:induction false} NothingNew(known: seq<Use>, uses: seq<Use>)
    requires AllKnown(known, uses)
    ensures RegisterAll(known, uses) == known
  {
    if uses != [] {
      assert Knows(known, uses[|uses| - 1].fileInfo);
      NothingNew(known, uses[..|uses| - 1]);
    }
  }

  lemma {:induction false} StillPositive(known: seq<Use>, uses: seq<Use>)
    requires Positive(known) && Positive(uses)
    ensures Positive(RegisterAll(known, uses))
  {
    if uses != [] {
      StillPositive(known, uses[..|uses| - 1]);
    }
  }

  /** What was known stays known, and what is evaluated is known afterwards. */
  lemma {:induction false} ThenKnown(known: seq<Use>, uses: seq<Use>, name: string)
    ensures Knows(known, name) ==> Knows(RegisterAll(known, uses), name)
    ensures (exists i :: 0 <= i < |uses| && uses[i].fileInfo == name) ==> Knows(RegisterAll(known, uses), name)
  {
    if uses != [] {
      var init, last := uses[..|uses| - 1], uses[|uses| - 1];
      ThenKnown(known, init, name);
      PlaceOfLonger(RegisterAll(known, init), last, name);
      if i :| 0 <= i < |uses| && uses[i].fileInfo == name {
        assert i < |init| ==> init[i].fileInfo == name;
      }
    }
  }

  /** The indices that these evaluations give at tuple number n. */
  function Draws(known: seq<Use>, uses: seq<Use>, n: nat): (drawn: seq<nat>)
    requires Positive(known)
    ensures |drawn| == |uses|
  {
    seq<nat>(|uses|, i requires 0 <= i < |uses| => IndexAt(known, uses[i].fileInfo, n))
  }

  /** While all indices are zero, it does not matter how many generators are known. */
  lemma SameIndex(known: seq<Use>, all: seq<Use>, fileInfo: string, n: nat)
    requires Positive(known) && Positive(all) && (n == 0 || known == all)
    ensures IndexAt(known, fileInfo, n) == IndexAt(all, fileInfo, n)
  {
    TupleOfZero(SizesOf(known));
    TupleOfZero(SizesOf(all));
  }

  lemma NextUse(known: seq<Use>, uses: seq<Use>, all: seq<Use>, n: nat, i: nat)
    requires i < |uses| && Positive(all) && (n == 0 || (known == all && AllKnown(all, uses)))
    ensures RegisterAll(known, uses[..i + 1]) == Register(RegisterAll(known, uses[..i]), uses[i])
    ensures n == 0 || (RegisterAll(known, uses[..i]) == all && Knows(all, uses[i].fileInfo))
    ensures Draws(all, uses[..i + 1], n) == Draws(all, uses[..i], n) + [IndexAt(all, uses[i].fileInfo, n)]
  {
    assert uses[..i + 1][..i] == uses[..i];
    if n > 0 {
      NothingNew(all, uses[..i]);
    }
  }

  /** The generators registered by the cycles with these evaluations. */
  function RegisteredBy(cycles: seq<seq<Use>>): seq<Use> {
    if cycles == [] then [] else RegisterAll(RegisteredBy(cycles[..|cycles| - 1]), cycles[|cycles| - 1])
  }

  predicate AllPositive(cycles: seq<seq<Use>>) {
    forall k :: 0 <= k < |cycles| ==> Positive(cycles[k])
  }

  lemma {:induction false} RegisteredArePositive(cycles: seq<seq<Use>>)
    requires AllPositive(cycles)
    ensures Positive(RegisteredBy(cycles))
  {
    if cycles != [] {
      RegisteredArePositive(cycles[..|cycles| - 1]);
      StillPositive(RegisteredBy(cycles[..|cycles| - 1]), cycles[|cycles| - 1]);
    }
  }

  /** After all the cycles, what any of them evaluates is known. */
  lemma {:induction false} CyclesAreKnown(cycles: seq<seq<Use>>, k: nat)
    requires k < |cycles|
    ensures AllKnown(RegisteredBy(cycles), cycles[k])
  {
    var init, last := cycles[..|cycles| - 1], cycles[|cycles| - 1];
    if k < |init| {
      CyclesAreKnown(init, k);
    }
    forall i | 0 <= i < |cycles[k]|
      ensures Knows(RegisteredBy(cycles), cycles[k][i].fileInfo)
    {
      ThenKnown(RegisteredBy(init), last, cycles[k][i].fileInfo);
    }
  }

  /** What is registered before cycle k of pass n. */
  function KnownBefore(cycles: seq<seq<Use>>, n: nat, k: nat): seq<Use>
    requires k <= |cycles|
  {
    RegisteredBy(if n == 0 then cycles[..k] else cycles)
  }

  lemma KnownNext(cycles: seq<seq<Use>>, n: nat, k: nat)
    requires k < |cycles|
    ensures RegisterAll(KnownBefore(cycles, n, k), cycles[k]) == KnownBefore(cycles, n, k + 1)
    ensures n == 0 || (KnownBefore(cycles, n, k) == RegisteredBy(cycles) && AllKnown(RegisteredBy(cycles), cycles[k]))
  {
    if n == 0 {
      assert cycles[..k + 1][..k] == cycles[..k];
    } else {
      CyclesAreKnown(cycles, k);
      NothingNew(RegisteredBy(cycles), cycles[k]);
    }
  }

  lemma AllRegistered(cycles: seq<seq<Use>>, n: nat)
    ensures KnownBefore(cycles, n, |cycles|) == RegisteredBy(cycles)
  {
    assert cycles[..|cycles|] == cycles;
  }

  /** The indices given in the first k cycles of pass n. */
  function PassDraws(cycles: seq<seq<Use>>, n: nat, k: nat): (drawn: seq<seq<nat>>)
    requires k <= |cycles| && Positive(RegisteredBy(cycles))
    ensures |drawn| == k
  {
    if k == 0 then [] else PassDraws(cycles, n, k - 1) + [Draws(RegisteredBy(cycles), cycles[k - 1], n)]
  }

  /** No name is known twice; what was not known before is under the name of some evaluation. */
  lemma {:induction false} KnownOnce(known: seq<Use>, uses: seq<Use>, p: nat)
    requires forall q :: 0 <= q < |known| ==> Place(known, known[q].fileInfo) == q
    ensures var all := RegisterAll(known, uses);
            && known <= all
            && (p < |all| ==> Place(all, all[p].fileInfo) == p)
            && (|known| <= p < |all| ==> exists i :: 0 <= i < |uses| && uses[i].fileInfo == all[p].fileInfo)
  {
    if uses != [] {
      var init, last := uses[..|uses| - 1], uses[|uses| - 1];
      var before, all := RegisterAll(known, init), RegisterAll(known, uses);
      KnownOnce(known, init, p);
      if p < |all| {
        PlaceOfLonger(before, last, all[p].fileInfo);
        assert p == |before| ==> uses[|uses| - 1].fileInfo == all[p].fileInfo;
        if i :| |known| <= p < |before| && 0 <= i < |init| && init[i].fileInfo == all[p].fileInfo {
          assert uses[i].fileInfo == all[p].fileInfo;
        }
      }
    }
  }

  /** Each registered generator is found under its name, and some cycle evaluates it. */
  lemma {:induction false} RegisteredOnce(cycles: seq<seq<Use>>, p: nat)
    requires p < |RegisteredBy(cycles)|
    ensures var all := RegisteredBy(cycles);
            Place(all, all[p].fileInfo) == p
            && exists k, i :: 0 <= k < |cycles| && 0 <= i < |cycles[k]| && cycles[k][i].fileInfo == all[p].fileInfo
  {
    var init, last := cycles[..|cycles| - 1], cycles[|cycles| - 1];
    var before := RegisteredBy(init);
    forall q | 0 <= q < |before|
      ensures Place(before, before[q].fileInfo) == q
    {
      RegisteredOnce(init, q);
    }
    KnownOnce(before, last, p);
    if p < |before| {
      RegisteredOnce(init, p);
      var k, i :| 0 <= k < |init| && 0 <= i < |init[k]| && init[k][i].fileInfo == before[p].fileInfo;
      assert cycles[k][i].fileInfo == RegisteredBy(cycles)[p].fileInfo;
    } else {
      var i :| 0 <= i < |last| && last[i].fileInfo == RegisteredBy(cycles)[p].fileInfo;
      assert cycles[|cycles| - 1][i].fileInfo == RegisteredBy(cycles)[p].fileInfo;
    }
  }

  /** In pass n every evaluation, in whatever cycle, gives the index that is chosen for its generator. */
  ghost predicate Gives(cycles: seq<seq<Use>>, n: nat, choice: seq<nat>)
    requires Positive(RegisteredBy(cycles)) && |choice| == |RegisteredBy(cycles)|
  {
    var all := RegisteredBy(cycles);
    forall k, i :: 0 <= k < |cycles| && 0 <= i < |cycles[k]| && Knows(all, cycles[k][i].fileInfo) ==>
      Draws(all, cycles[k], n)[i] == choice[Place(all, cycles[k][i].fileInfo)]
  }

  /** For every choice of an index for each generator there is exactly one pass that gives it. */
  lemma EveryChoiceIsGivenOnce(cycles: seq<seq<Use>>, choice: seq<nat>, n: nat)
    requires AllPositive(cycles) && InRange(SizesOf(RegisteredBy(cycles)), choice)
        && n < Product(SizesOf(RegisteredBy(cycles)))
    ensures Positive(RegisteredBy(cycles))
    ensures Number(SizesOf(RegisteredBy(cycles)), choice) < Product(SizesOf(RegisteredBy(cycles)))
    ensures Gives(cycles, n, choice) <==> n == Number(SizesOf(RegisteredBy(cycles)), choice)
  {
    var all := RegisteredBy(cycles);
    var sizes := SizesOf(all);
    RegisteredArePositive(cycles);
    NumberInRange(sizes, choice);
    TupleOfNumber(sizes, choice);
    NumberOfTuple(sizes, n);
    if Gives(cycles, n, choice) {
      forall p | 0 <= p < |all|
        ensures Tuple(sizes, n)[p] == choice[p]
      {
        RegisteredOnce(cycles, p);
        var k, i :| 0 <= k < |cycles| && 0 <= i < |cycles[k]| && cycles[k][i].fileInfo == all[p].fileInfo;
        assert Draws(all, cycles[k], n)[i] == choice[p];
      }
      assert Tuple(sizes, n) == choice;
    }
  }

  /** The generators in order are the known ones, and are found by their names. */
  ghost predicate Named(gs: seq<GeneratorInfo>, names: map<string, GeneratorInfo>, known: seq<Use>) {
    forall key {:trigger Look(key)} :: Look(key) ==>
      && |gs| == |known|
      && forall name {:trigger Place(known, name)} ::
           (name in names <==> Knows(known, name)) && (name in names ==> names[name] == gs[Place(known, name)])
  }

  lemma NoneNamed(gs: seq<GeneratorInfo>, names: map<string, GeneratorInfo>)
    requires gs == [] && names == map[]
    ensures Named(gs, names, [])
  {
    forall name
      ensures !Knows([], name)
      ensures name !in names
    {
    }
  }

  lemma NamedNext(gs: seq<GeneratorInfo>, names: map<string, GeneratorInfo>, known: seq<Use>, use: Use,
      info: GeneratorInfo)
    requires Named(gs, names, known) && !Knows(known, use.fileInfo)
    ensures Named(gs + [info], names[use.fileInfo := info], known + [use])
  {
    assert Look(0);
    var more := names[use.fileInfo := info];
    forall name
      ensures (name in more <==> Knows(known + [use], name))
      ensures (name in more ==> more[name] == (gs + [info])[Place(known + [use], name)])
    {
      PlaceOfLonger(known, use, name);
    }
  }

  predicate Apart(gs: seq<GeneratorInfo>, i: nat, j: nat)
    requires i < |gs| && j < |gs|
  {
    i != j ==> gs[i] != gs[j]
  }

  class GeneratorsForTest {
    var generatorsByName: map<string, GeneratorInfo>
    var generatorsInOrder: seq<GeneratorInfo>

    constructor ()
      ensures Valid() && generatorsInOrder == [] && generatorsByName == map[]
    {
      generatorsByName, generatorsInOrder := map[], [];
    }

    ghost predicate Valid()
      reads this, generatorsInOrder
    {
      && (forall i, j {:trigger Apart(generatorsInOrder, i, j)} ::
            0 <= i < |generatorsInOrder| && 0 <= j < |generatorsInOrder| ==> Apart(generatorsInOrder, i, j))
      && (forall name :: name in generatorsByName ==> generatorsByName[name] in generatorsInOrder)
    }

    /** Every index is one of its generator. */
    ghost predicate Indexed()
      reads this, generatorsInOrder
    {
      forall i :: 0 <= i < |generatorsInOrder| ==> generatorsInOrder[i].currentIndex < generatorsInOrder[i].size
    }

    ghost function Infos(): set<GeneratorInfo>
      reads this
    {
      set info | info in generatorsInOrder
    }

    ghost function Sizes(): (sizes: seq<nat>)
      reads this
      ensures |sizes| == |generatorsInOrder|
    {
      var gs := generatorsInOrder;
      seq<nat>(|gs|, i requires 0 <= i < |gs| => gs[i].size)
    }

    ghost function Indices(): (at: seq<nat>)
      reads this, generatorsInOrder
      ensures |at| == |generatorsInOrder|
    {
      var gs := generatorsInOrder;
      seq<nat>(|gs|, i requires 0 <= i < |gs| reads gs => gs[i].currentIndex)
    }

    /** The generators, of these sizes, are at tuple number n. */
    ghost predicate AtTuple(sizes: seq<nat>, n: nat)
      reads this, generatorsInOrder
    {
      forall key {:trigger Look(key)} :: Look(key) ==>
        && Valid() && Indexed() && Sizes() == sizes && n < Product(sizes)
        && (forall i :: 0 <= i < |sizes| ==> sizes[i] >= 1) && Indices() == Tuple(sizes, n)
    }

    /** Generators that were just registered, in any number, are at tuple number zero. */
    lemma AtStart()
      requires Valid() && Indexed()
      requires forall i :: 0 <= i < |generatorsInOrder| ==> generatorsInOrder[i].currentIndex == 0
      ensures AtTuple(Sizes(), 0)
    {
      ProductPositive(Sizes());
      ZerosAreTupleZero(Sizes(), Indices());
    }

    /** The generators go from tuple number n to the next one, or back to the first after the last. */
    method AdvanceFrom(ghost sizes: seq<nat>, ghost n: nat) returns (more: bool)
      requires AtTuple(sizes, n)
      modifies Infos()
      ensures (more <==> n + 1 < Product(sizes)) && AtTuple(sizes, if more then n + 1 else 0)
    {
      assert Look(0);
      CounterStep(sizes, n);
      ProductPositive(sizes);
      more := MoveNext();
    }

    /** A generator is registered where it is first evaluated, at index zero. */
    method GetGeneratorInfo(fileInfo: string, size: nat) returns (info: GeneratorInfo)
      requires Valid()
      modifies this
      ensures Valid() && (old(Indexed()) && size >= 1 ==> Indexed())
      ensures fileInfo in generatorsByName && generatorsByName[fileInfo] == info
      ensures if fileInfo in old(generatorsByName) then
                info == old(generatorsByName)[fileInfo]
                && generatorsInOrder == old(generatorsInOrder) && generatorsByName == old(generatorsByName)
              else
                fresh(info) && info.size == size && info.currentIndex == 0
                && generatorsInOrder == old(generatorsInOrder) + [info]
                && generatorsByName == old(generatorsByName)[fileInfo := info]
    {
      if fileInfo in generatorsByName {
        return generatorsByName[fileInfo];
      }
      info := new GeneratorInfo(size);
      generatorsByName := generatorsByName[fileInfo := info];
      generatorsInOrder := generatorsInOrder + [info];
      forall i, j | 0 <= i < |generatorsInOrder| && 0 <= j < |generatorsInOrder|
        ensures Apart(generatorsInOrder, i, j)
      {
        assert i < |generatorsInOrder| - 1 && j < |generatorsInOrder| - 1 ==> Apart(old(generatorsInOrder), i, j);
      }
    }

    /** These generators are registered, in this order, and they are at tuple number n. */
    ghost predicate RegisteredAt(known: seq<Use>, n: nat)
      reads this, generatorsInOrder
    {
      Positive(known) && AtTuple(SizesOf(known), n) && Named(generatorsInOrder, generatorsByName, known)
    }

    lemma NothingRegistered()
      requires generatorsInOrder == [] && generatorsByName == map[]
      ensures RegisteredAt([], 0)
    {
      AtStart();
      assert Sizes() == SizesOf([]);
      NoneNamed(generatorsInOrder, generatorsByName);
    }

    /**
     Context::getGeneratorIndex: the index of the generator of that name. One that was not known is
     registered; that may only happen while all of them are at zero.
     */
    method GetGeneratorIndex(fileInfo: string, totalSize: nat, ghost known: seq<Use>, ghost n: nat) returns (index: nat)
      requires RegisteredAt(known, n) && totalSize >= 1 && (n == 0 || Knows(known, fileInfo))
      modifies this
      ensures RegisteredAt(Register(known, Use(fileInfo, totalSize)), n)
      ensures index == IndexAt(Register(known, Use(fileInfo, totalSize)), fileInfo, n)
      ensures fresh(Infos() - old(Infos()))
    {
      ghost var gs, names := generatorsInOrder, generatorsByName;
      Found(known, n, fileInfo);
      var info := GetGeneratorInfo(fileInfo, totalSize);
      index := info.currentIndex;
      if !Knows(known, fileInfo) {
        NewAtZero(gs, names, known, Use(fileInfo, totalSize), info);
      }
    }

    /** The evaluations of one cycle. */
    method Evaluate(uses: seq<Use>, ghost known: seq<Use>, ghost all: seq<Use>, ghost n: nat) returns (drawn: seq<nat>)
      requires RegisteredAt(known, n) && Positive(uses) && Positive(all)
      requires n == 0 || (known == all && AllKnown(all, uses))
      modifies this
      ensures RegisteredAt(RegisterAll(known, uses), n)
      ensures drawn == Draws(all, uses, n)
      ensures fresh(Infos() - old(Infos()))
    {
      drawn := [];
      assert uses[..0] == [];
      for i := 0 to |uses|
        invariant RegisteredAt(RegisterAll(known, uses[..i]), n)
        invariant drawn == Draws(all, uses[..i], n)
        invariant fresh(Infos() - old(Infos()))
      {
        NextUse(known, uses, all, n, i);
        var index := EvaluateOne(uses[i], RegisterAll(known, uses[..i]), all, n);
        drawn := drawn + [index];
      }
      assert uses[..|uses|] == uses;
    }

    method EvaluateOne(use: Use, ghost known: seq<Use>, ghost all: seq<Use>, ghost n: nat) returns (index: nat)
      requires RegisteredAt(known, n) && use.size >= 1 && Positive(all)
      requires n == 0 || (known == all && Knows(all, use.fileInfo))
      modifies this
      ensures RegisteredAt(Register(known, use), n)
      ensures index == IndexAt(all, use.fileInfo, n)
      ensures fresh(Infos() - old(Infos()))
    {
      index := GetGeneratorIndex(use.fileInfo, use.size, known, n);
      SameIndex(Register(known, use), all, use.fileInfo, n);
    }

    lemma NewAtZero(gs: seq<GeneratorInfo>, names: map<string, GeneratorInfo>, known: seq<Use>, use: Use,
        info: GeneratorInfo)
      requires Named(gs, names, known) && Positive(known) && use.size >= 1 && !Knows(known, use.fileInfo)
      requires Valid() && Indexed() && generatorsInOrder == gs + [info]
          && generatorsByName == names[use.fileInfo := info]
      requires |gs| == |known| && info.size == use.size && info.currentIndex == 0
      requires forall i :: 0 <= i < |gs| ==> gs[i].size == known[i].size && gs[i].currentIndex == 0
      ensures RegisteredAt(known + [use], 0) && IndexAt(known + [use], use.fileInfo, 0) == 0
    {
      NamedNext(gs, names, known, use, info);
      AtStart();
      assert Sizes() == SizesOf(known + [use]);
      TupleOfZero(SizesOf(known + [use]));
    }

    lemma Found(known: seq<Use>, n: nat, fileInfo: string)
      requires RegisteredAt(known, n)
      ensures Valid() && Indexed() && |generatorsInOrder| == |known|
      ensures fileInfo in generatorsByName <==> Knows(known, fileInfo)
      ensures Knows(known, fileInfo) ==> generatorsByName[fileInfo].currentIndex == IndexAt(known, fileInfo, n)
      ensures forall i :: 0 <= i < |known| ==>
        generatorsInOrder[i].size == known[i].size && (n == 0 ==> generatorsInOrder[i].currentIndex == 0)
    {
      assert Look(0);
      assert Indices() == Tuple(SizesOf(known), n);
      assert forall i :: 0 <= i < |known| ==> known[i].size == SizesOf(known)[i];
      TupleOfZero(SizesOf(known));
      assert forall i :: 0 <= i < |known| ==> generatorsInOrder[i].currentIndex == Indices()[i];
      assert forall i :: 0 <= i < |known| ==> generatorsInOrder[i].size == Sizes()[i];
    }

    /** An advance from the indices `at`: before generator number `it` moves, or when one before it has moved on. */
    ghost predicate Moving(sizes: seq<nat>, at: seq<nat>, it: nat, more: bool)
      reads *
    {
      forall key {:trigger Look(key)} :: Look(key) ==>
        && Valid() && Indexed() && Sizes() == sizes && InRange(sizes, at)
        && if more then (Indices(), true) == Advance(sizes, at) else Progress(sizes, at, it, sizes, Indices())
    }

    /** Moves one of the generators on, as part of an advance. */
    method MoveOne(it: nat, ghost sizes: seq<nat>, ghost at: seq<nat>) returns (more: bool)
      requires it < |generatorsInOrder| && Moving(sizes, at, it, false)
      modifies generatorsInOrder[it]
      ensures Moving(sizes, at, it + 1, more)
    {
      assert Look(0);
      ghost var now := Indices();
      more := MoveIndex(it);
      ProgressStep(sizes, at, it, now, Indices(), more);
    }

    method MoveAll(ghost sizes: seq<nat>, ghost at: seq<nat>) returns (more: bool, ghost end: nat)
      requires Moving(sizes, at, 0, false)
      modifies generatorsInOrder
      ensures Moving(sizes, at, end, more) && (!more ==> end == |generatorsInOrder|)
    {
      var it := 0;
      while it < |generatorsInOrder|
        invariant it <= |generatorsInOrder| && Moving(sizes, at, it, false)
      {
        more := MoveOne(it, sizes, at);
        if more {
          return true, it + 1;
        }
        it := it + 1;
      }
      return false, it;
    }

    lemma AllMoved(sizes: seq<nat>, at: seq<nat>, end: nat, more: bool)
      requires Moving(sizes, at, end, more) && (!more ==> end == |generatorsInOrder|)
      ensures Valid() && Indexed() && Sizes() == sizes && InRange(sizes, at) && (Indices(), more) == Advance(sizes, at)
    {
      assert Look(0);
      if !more {
        ProgressEnd(sizes, at, Indices());
      }
    }

    lemma Snapshot() returns (sizes: seq<nat>, at: seq<nat>)
      requires Valid() && Indexed()
      ensures sizes == Sizes() && at == Indices() && InRange(sizes, at)
    {
      sizes, at := Sizes(), Indices();
    }

    method MoveIndex(it: nat) returns (more: bool)
      requires Valid() && Indexed() && it < |generatorsInOrder|
      modifies generatorsInOrder[it]
      ensures Valid() && Indexed() && Sizes() == old(Sizes())
      ensures more <==> old(Indices())[it] + 1 < Sizes()[it]
      ensures Indices() == old(Indices())[it := if more then old(Indices())[it] + 1 else 0]
    {
      forall j | 0 <= j < |generatorsInOrder| && j != it
        ensures generatorsInOrder[j] != generatorsInOrder[it]
      {
        assert Apart(generatorsInOrder, it, j);
      }
      more := generatorsInOrder[it].MoveNext();
    }

    method MoveNext() returns (more: bool)
      requires Valid() && Indexed()
      modifies generatorsInOrder
      ensures Valid() && Indexed() && Sizes() == old(Sizes())
      ensures InRange(old(Sizes()), old(Indices())) && (Indices(), more) == Advance(old(Sizes()), old(Indices()))
    {
      ghost var sizes, at := Snapshot();
      ghost var end;
      ProgressStart(sizes, at);
      more, end := MoveAll(sizes, at);
      AllMoved(sizes, at, end, more);
    }
  }

  /** An advance under way: the generators before `it` have wrapped, and `it` is next to move. */
  ghost predicate Progress(sizes: seq<nat>, at: seq<nat>, it: nat, sizesNow: seq<nat>, now: seq<nat>) {
    InRange(sizes, at) && it <= |sizes| && sizesNow == sizes
    && now == Wrapped(at, it) && Advance(sizes, at) == Advanced(sizes, at, it)
  }

  lemma ProgressStart(sizes: seq<nat>, at: seq<nat>)
    requires InRange(sizes, at)
    ensures Progress(sizes, at, 0, sizes, at)
  {
    AdvancedFromStart(sizes, at);
  }

  lemma ProgressStep(sizes: seq<nat>, at: seq<nat>, it: nat, now: seq<nat>, next: seq<nat>, more: bool)
    requires Progress(sizes, at, it, sizes, now) && it < |sizes|
    requires (more <==> now[it] + 1 < sizes[it]) && next == now[it := if more then now[it] + 1 else 0]
    ensures more ==> (next, true) == Advance(sizes, at)
    ensures !more ==> Progress(sizes, at, it + 1, sizes, next)
  {
    AdvancedStep(sizes, at, it);
    WrappedStep(at, it);
  }

  lemma ProgressEnd(sizes: seq<nat>, at: seq<nat>, now: seq<nat>)
    requires Progress(sizes, at, |sizes|, sizes, now)
    ensures (now, false) == Advance(sizes, at)
  {
    AdvancedAtEnd(sizes, at);
  }

  /** The first generators are back at zero, the others not moved yet. */
  function Wrapped(at: seq<nat>, it: nat): (now: seq<nat>)
    requires it <= |at|
    ensures it == 0 ==> now == at
    ensures it == |at| ==> now == Zeros(it)
  {
    Zeros(it) + at[it..]
  }

  /** What an advance comes to once the first generators have wrapped. */
  function Advanced(sizes: seq<nat>, at: seq<nat>, it: nat): (seq<nat>, bool)
    requires InRange(sizes, at) && it <= |sizes|
  {
    var (rest, more) := Advance(sizes[it..], at[it..]);
    (Zeros(it) + rest, more)
  }

  lemma AdvancedFromStart(sizes: seq<nat>, at: seq<nat>)
    requires InRange(sizes, at)
    ensures Advanced(sizes, at, 0) == Advance(sizes, at)
  {
    assert sizes[0..] == sizes && at[0..] == at;
    assert Zeros(0) + Advance(sizes, at).0 == Advance(sizes, at).0;
  }

  lemma AdvancedAtEnd(sizes: seq<nat>, at: seq<nat>)
    requires InRange(sizes, at)
    ensures Advanced(sizes, at, |sizes|) == (Zeros(|sizes|), false)
  {
    assert sizes[|sizes|..] == [] && at[|sizes|..] == [];
    assert Zeros(|sizes|) + [] == Zeros(|sizes|);
  }

  lemma AdvancedStep(sizes: seq<nat>, at: seq<nat>, it: nat)
    requires InRange(sizes, at) && it < |sizes|
    ensures at[it] + 1 < sizes[it] ==> Advanced(sizes, at, it) == (Wrapped(at, it)[it := at[it] + 1], true)
    ensures at[it] + 1 == sizes[it] ==> Advanced(sizes, at, it) == Advanced(sizes, at, it + 1)
  {
    var ss, bs := sizes[it..], at[it..];
    assert ss[1..] == sizes[it + 1..] && bs[1..] == at[it + 1..] && ss[0] == sizes[it] && bs[0] == at[it];
    if at[it] + 1 < sizes[it] {
      assert Zeros(it) + ([at[it] + 1] + at[it + 1..]) == Wrapped(at, it)[it := at[it] + 1];
    } else {
      var rest := Advance(ss[1..], bs[1..]).0;
      assert Zeros(it) + ([0] + rest) == Zeros(it + 1) + rest;
    }
  }

  lemma WrappedStep(at: seq<nat>, it: nat)
    requires it < |at|
    ensures Wrapped(at, it)[it] == at[it]
    ensures Wrapped(at, it)[it := 0] == Wrapped(at, it + 1)
  {
  }

  function Zeros(n: nat): (zs: seq<nat>)
    ensures |zs| == n && forall i :: 0 <= i < n ==> zs[i] == 0
  {
    seq<nat>(n, _ => 0)
  }

  // ---------- Composite generators ----------

  datatype Generator = Between(from: int, to: int) | Values(values: seq<int>)
  {
    function Size(): nat
      requires Between? ==> from <= to + 1
    {
      if Between? then 1 + to - from else |values|
    }

    function GetValue(index: nat): int
      requires Between? ==> from <= to + 1
      requires index < Size()
    {
      if Between? then from + index else values[index]
    }

    /** All the values of the generator, in order. */
    function All(): (vs: seq<int>)
      requires Between? ==> from <= to + 1
    {
      if Between? then seq(1 + to - from, i => from + i) else values
    }
  }

  predicate Proper(gs: seq<Generator>) {
    forall i :: 0 <= i < |gs| ==> gs[i].Between? ==> gs[i].from <= gs[i].to + 1
  }

  function Concatenation(gs: seq<Generator>): seq<int>
    requires Proper(gs)
  {
    if gs == [] then [] else gs[0].All() + Concatenation(gs[1..])
  }

  /** The conversion of a composite generator to a value; None is the internal error. */
  method ValueAt(composed: seq<Generator>, overallIndex: nat) returns (value: Option<int>)
    requires Proper(composed)
    ensures value == if overallIndex < |Concatenation(composed)| then Some(Concatenation(composed)[overallIndex])
                     else None
  {
    var index, it := 0, 0;
    ghost var before: seq<int> := [];
    PassNone(composed);
    while it < |composed|
      invariant 0 <= it <= |composed| && |before| == index <= overallIndex
      invariant Passed(composed, it, before)
    {
      var generator := composed[it];
      PassNext(composed, it, before);
      if overallIndex >= index && overallIndex < index + generator.Size() {
        return Some(generator.GetValue(overallIndex - index));
      }
      before := before + generator.All();
      index := index + generator.Size();
      it := it + 1;
    }
    PassedAll(composed, before);
    return None;
  }

  /** These are the values of the first generators. */
  ghost predicate Passed(composed: seq<Generator>, it: nat, before: seq<int>)
    requires Proper(composed) && it <= |composed|
  {
    forall key {:trigger Look(key)} :: Look(key) ==> Concatenation(composed) == before + Concatenation(composed[it..])
  }

  lemma PassNone(composed: seq<Generator>)
    requires Proper(composed)
    ensures Passed(composed, 0, [])
  {
    assert composed[0..] == composed && [] + Concatenation(composed) == Concatenation(composed);
  }

  lemma PassedAll(composed: seq<Generator>, before: seq<int>)
    requires Proper(composed) && Passed(composed, |composed|, before)
    ensures before == Concatenation(composed)
  {
    assert Look(0);
    assert Concatenation([]) == [] && before + [] == before;
  }

  lemma PassNext(composed: seq<Generator>, it: nat, before: seq<int>)
    requires Proper(composed) && it < |composed| && Passed(composed, it, before)
    ensures Passed(composed, it + 1, before + composed[it].All())
    ensures |composed[it].All()| == composed[it].Size() && |before| + composed[it].Size() <= |Concatenation(composed)|
    ensures forall k :: 0 <= k < composed[it].Size() ==>
              Concatenation(composed)[|before| + k] == composed[it].GetValue(k)
  {
    assert Look(0);
    var rest := composed[it..];
    assert rest[0] == composed[it] && rest[1..] == composed[it + 1..];
    var vs, after := composed[it].All(), Concatenation(composed[it + 1..]);
    assert before + (vs + after) == before + vs + after;
    assert forall k :: 0 <= k < |vs| ==> (before + vs + after)[|before| + k] == vs[k];
  }

  /** How many values the parts have together. */
  function Length(parts: seq<Generator>): nat
    requires Proper(parts)
  {
    if parts == [] then 0
    else
      var rest := Length(parts[1..]);
      rest + if parts[0].Between? then parts[0].to - parts[0].from + 1 else |parts[0].values|
  }

  lemma {:induction false} LengthIs(parts: seq<Generator>)
    requires Proper(parts)
    ensures |Concatenation(parts)| == Length(parts)
  {
    if parts != [] {
      LengthIs(parts[1..]);
    }
  }

  lemma {:induction false} ConcatenationConcat(x: seq<Generator>, y: seq<Generator>)
    requires Proper(x) && Proper(y)
    ensures Proper(x + y) && Concatenation(x + y) == Concatenation(x) + Concatenation(y)
  {
    if x == [] {
      assert x + y == y;
    } else {
      assert (x + y)[1..] == x[1..] + y;
      ConcatenationConcat(x[1..], y);
      Regroup(x[0].All(), Concatenation(x[1..]), Concatenation(y));
    }
  }

  /** At an index that lies i places into a part, a range gives its start plus i, and a list its entry i. */
  method ValueInPart(before: seq<Generator>, part: Generator, rest: seq<Generator>, i: nat) returns (value: Option<int>)
    requires Proper(before) && Proper(rest)
    requires match part case Between(from, to) => from + i <= to case Values(vs) => i < |vs|
    ensures value == Some(match part case Between(from, _) => from + i case Values(vs) => vs[i])
  {
    PartAt(before, part, rest, i);
    value := ValueAt(before + ([part] + rest), Length(before) + i);
  }

  lemma PartAt(before: seq<Generator>, part: Generator, rest: seq<Generator>, i: nat)
    requires Proper(before) && Proper(rest)
    requires match part case Between(from, to) => from + i <= to case Values(vs) => i < |vs|
    ensures Proper(before + ([part] + rest))
    ensures var all, at := Concatenation(before + ([part] + rest)), Length(before) + i;
            at < |all| && all[at] == match part case Between(from, _) => from + i case Values(vs) => vs[i]
  {
    LengthIs(before);
    assert ([part] + rest)[0] == part && ([part] + rest)[1..] == rest;
    ConcatenationConcat(before, [part] + rest);
    InMiddle(Concatenation(before), part.All(), Concatenation(rest), i);
  }

  lemma InMiddle(before: seq<int>, part: seq<int>, rest: seq<int>, i: nat)
    requires i < |part|
    ensures var all := before + (part + rest); |before| + i < |all| && all[|before| + i] == part[i]
  {
  }

  /** And there is no value exactly at the indices from the common length on. */
  method NoValue(parts: seq<Generator>, index: nat) returns (value: Option<int>)
    requires Proper(parts)
    ensures value.None? <==> index >= Length(parts)
  {
    LengthIs(parts);
    value := ValueAt(parts, index);
  }
}
