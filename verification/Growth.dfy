/**
 How a MemBuf grows: by half of what is needed, and by at most one mebibyte. In 32-bit arithmetic,
 then over a whole run of reallocations.
 */
module Growth {
  import opened Arithmetic

  const MAXDELTA: nat := 1048576

  const MINSIZE: nat := 16

  /** The size that realloc_with_margin asks for, before it is cut to 32 bits. */
  function Wanted(size: nat): (r: nat)
    ensures r >= size && r >= 24
  {
    var n := if size < MINSIZE then MINSIZE else size;
    n + if n / 2 > MAXDELTA then MAXDELTA else n / 2
  }

  /** As the code computes it, in uint32. */
  function NewLenBuf(size: nat): nat {
    Wanted(size) % TWO_32
  }

  /** The new buffer has room for what is needed exactly when the margin does not wrap. */
  lemma RoomIff(size: nat)
    requires size < TWO_32
    ensures NewLenBuf(size) >= size <==> size < TWO_32 - MAXDELTA
  {
  }

  /** The margin is half of what is needed, but at most a mebibyte; the least buffer has 24 bytes. */
  lemma MarginIs(size: nat)
    ensures size < 16 ==> Wanted(size) == 24
    ensures 16 <= size <= 0x20_0000 ==> 2 * (Wanted(size) - size) <= size <= 2 * (Wanted(size) - size) + 1
    ensures size >= 0x20_0000 ==> Wanted(size) - size == 0x10_0000
  {
  }

  lemma WantedGrows(m: nat, n: nat)
    requires m <= n
    ensures Wanted(m) <= Wanted(n)
  {
  }

  // ---------- Reallocations ----------

  /** The least capacity after r reallocations: each is only made for more than the capacity before. */
  function Least(r: nat): nat {
    if r == 0 then 0 else Wanted(Least(r - 1) + 1)
  }

  lemma OneStep(r: nat, v: nat)
    requires Least(r) == v
    ensures Least(r + 1) == Wanted(v + 1)
  {
  }

  lemma FourSteps(r: nat, v0: nat, v1: nat, v2: nat, v3: nat, v4: nat)
    requires Least(r) == v0 && v1 == Wanted(v0 + 1) && v2 == Wanted(v1 + 1) && v3 == Wanted(v2 + 1)
        && v4 == Wanted(v3 + 1)
    ensures Least(r + 4) == v4
  {
    OneStep(r, v0);
    OneStep(r + 1, v1);
    OneStep(r + 2, v2);
    OneStep(r + 3, v3);
  }

  lemma TwentyEightSteps(r: nat)
    requires Least(r) == 0
    ensures Least(r + 28) == 1507962
  {
    FourSteps(r, 0, 24, 37, 57, 87);
    FourSteps(r + 4, 87, 132, 199, 300, 451);
    FourSteps(r + 8, 451, 678, 1018, 1528, 2293);
    FourSteps(r + 12, 2293, 3441, 5163, 7746, 11620);
    FourSteps(r + 16, 11620, 17431, 26148, 39223, 58836);
    FourSteps(r + 20, 58836, 88255, 132384, 198577, 297867);
    FourSteps(r + 24, 297867, 446802, 670204, 1005307, 1507962);
  }

  /** After the 28th, every reallocation is worth a mebibyte. */
  lemma {:induction false} LeastLarge(k: nat)
    ensures Least(k + 29) >= (k + 2) * MAXDELTA
  {
    if k == 0 {
      TwentyEightSteps(k);
      assert Least(k + 29) == Wanted(Least(k + 28) + 1);
    } else {
      LeastLarge(k - 1);
      assert Least(k + 29) == Wanted(Least(k - 1 + 29) + 1);
    }
  }

  /** What a run of appends has cost so far, and the size for which the buffer was last reallocated. */
  datatype Cost = Cost(copied: nat, reallocs: nat, size: nat)

  const NO_COST: Cost := Cost(0, 0, 0)

  /** A buffer of the given capacity and length that was empty at first, and has only been appended to. */
  ghost predicate Economical(c: Cost, capacity: nat, len: nat) {
    && c.size <= len <= capacity
    && (if c.reallocs == 0 then c.copied == 0 else capacity == Wanted(c.size))
    && capacity >= Least(c.reallocs)
    && (c.size <= 2 * MAXDELTA ==> c.copied <= 3 * c.size)
    && (c.size < MINSIZE ==> c.copied <= c.size)
  }

  /** A reallocation for a longer buffer keeps that; it copies what the buffer held. */
  lemma ReallocationStaysEconomical(c: Cost, capacity: nat, len: nat, total: nat)
    requires Economical(c, capacity, len) && total > capacity
    ensures Economical(Cost(c.copied + len, c.reallocs + 1, total), Wanted(total), total)
  {
    WantedGrows(capacity + 1, total);
    WantedGrows(Least(c.reallocs) + 1, capacity + 1);
  }

  /**
   The cost of appending: up to two mebibytes, all the copying together is at most three times the
   length; and however long the buffer gets, there are no more than 28 reallocations and one for each
   mebibyte.
   */
  lemma AppendingIsCheap(c: Cost, capacity: nat, len: nat)
    requires Economical(c, capacity, len)
    ensures len <= 2 * MAXDELTA ==> c.copied <= 3 * len
    ensures c.reallocs <= len / MAXDELTA + 28
  {
    if c.reallocs >= 29 {
      LeastLarge(c.reallocs - 29);
      assert (c.reallocs - 28) * MAXDELTA <= len;
    }
  }

  /** Beyond two mebibytes a reallocation raises the capacity by more than one. */
  lemma LargeStep(capacity: nat, total: nat)
    requires total > capacity && total > 2 * MAXDELTA
    ensures Wanted(total) > capacity + MAXDELTA
  {
  }

  // ---------- Whole runs ----------

  /** A buffer as far as its growth goes. */
  datatype Size = Size(cost: Cost, capacity: nat, len: nat)

  /** Appending n bytes. */
  function Append(s: Size, n: nat): Size {
    var total := s.len + n;
    if total > s.capacity then Size(Cost(s.cost.copied + s.len, s.cost.reallocs + 1, total), Wanted(total), total)
    else s.(len := total)
  }

  /** Appending pieces of these sizes to an empty buffer of some capacity. */
  function AppendAll(capacity: nat, sizes: seq<nat>): Size {
    if sizes == [] then Size(NO_COST, capacity, 0)
    else Append(AppendAll(capacity, sizes[..|sizes| - 1]), sizes[|sizes| - 1])
  }

  lemma {:induction false} RunIsEconomical(capacity: nat, sizes: seq<nat>)
    ensures var s := AppendAll(capacity, sizes); Economical(s.cost, s.capacity, s.len)
  {
    if sizes != [] {
      var s, n := AppendAll(capacity, sizes[..|sizes| - 1]), sizes[|sizes| - 1];
      RunIsEconomical(capacity, sizes[..|sizes| - 1]);
      AppendStaysEconomical(s, n);
    }
  }

  lemma AppendStaysEconomical(s: Size, n: nat)
    requires Economical(s.cost, s.capacity, s.len)
    ensures var r := Append(s, n); Economical(r.cost, r.capacity, r.len)
  {
    if s.len + n > s.capacity {
      ReallocationStaysEconomical(s.cost, s.capacity, s.len, s.len + n);
    }
  }

  /** Whatever is appended to an empty buffer, in whatever pieces. */
  lemma RunIsCheap(capacity: nat, sizes: seq<nat>)
    ensures var s := AppendAll(capacity, sizes);
            && (s.len <= 2 * MAXDELTA ==> s.cost.copied <= 3 * s.len)
            && s.cost.reallocs <= s.len / MAXDELTA + 28
  {
    RunIsEconomical(capacity, sizes);
    var s := AppendAll(capacity, sizes);
    AppendingIsCheap(s.cost, s.capacity, s.len);
  }
}
