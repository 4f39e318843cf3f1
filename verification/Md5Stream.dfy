/**
 What a run of `process` calls does to the bytes, apart from the hash itself: which blocks are
 handed to `process_block`, in which order, and which bytes stay stored for the next call.

 `Intended` is what the comments of src/md5/md5.cpp:71-75 and 95-98 describe. `Literal` is what the
 code says: the guard at line 76 reads `stored_size & (input_length + stored_size >= BLOCK_SIZE)`,
 which tests whether stored_size is odd, and an input that is used up without rest empties the
 store.
 */
module Md5Stream {
  import opened Wrappers
  import opened Arithmetic

  const BLOCK_SIZE: nat := 64

  type Byte = b: int | 0 <= b < 256

  /** The blocks handed over so far, and the bytes stored. */
  datatype Stream = Stream(blocks: seq<seq<Byte>>, stored: seq<Byte>)

  const FRESH: Stream := Stream([], [])

  // ---------- Cutting bytes into blocks ----------

  function Blocks(s: seq<Byte>): seq<seq<Byte>> {
    if |s| < BLOCK_SIZE then [] else [s[..BLOCK_SIZE]] + Blocks(s[BLOCK_SIZE..])
  }

  function Tail(s: seq<Byte>): seq<Byte> {
    if |s| < BLOCK_SIZE then s else Tail(s[BLOCK_SIZE..])
  }

  lemma {:induction false} CutSizes(s: seq<Byte>)
    ensures |Blocks(s)| == |s| / BLOCK_SIZE && |Tail(s)| == |s| % BLOCK_SIZE
    ensures forall k :: 0 <= k < |Blocks(s)| ==> |Blocks(s)[k]| == BLOCK_SIZE
  {
    if |s| >= BLOCK_SIZE {
      CutSizes(s[BLOCK_SIZE..]);
    }
  }

  function Flat(blocks: seq<seq<Byte>>): seq<Byte> {
    if blocks == [] then [] else blocks[0] + Flat(blocks[1..])
  }

  /** Cutting loses nothing. */
  lemma {:induction false} CutIsWhole(s: seq<Byte>)
    ensures Flat(Blocks(s)) + Tail(s) == s
  {
    if |s| >= BLOCK_SIZE {
      var rest := s[BLOCK_SIZE..];
      CutIsWhole(rest);
      var head := s[..BLOCK_SIZE];
      assert Blocks(s)[1..] == Blocks(rest);
      assert Flat(Blocks(s)) == head + Flat(Blocks(rest));
      assert s == head + (Flat(Blocks(rest)) + Tail(rest));
    }
  }

  /** Bytes may be cut in two goes, the tail of the first going before the second. */
  lemma {:induction false} CutInTwo(s: seq<Byte>, t: seq<Byte>)
    ensures Blocks(s + t) == Blocks(s) + Blocks(Tail(s) + t)
    ensures Tail(s + t) == Tail(Tail(s) + t)
  {
    if |s| < BLOCK_SIZE {
      assert Tail(s) == s;
    } else {
      var rest := s[BLOCK_SIZE..];
      CutInTwo(rest, t);
      assert (s + t)[BLOCK_SIZE..] == rest + t;
      assert (s + t)[..BLOCK_SIZE] == s[..BLOCK_SIZE];
      Regroup([s[..BLOCK_SIZE]], Blocks(rest), Blocks(Tail(rest) + t));
    }
  }

  // ---------- One call ----------

  function Intended(st: Stream, input: seq<Byte>): Stream {
    Stream(st.blocks + Blocks(st.stored + input), Tail(st.stored + input))
  }

  function Literal(st: Stream, input: seq<Byte>): Stream
    requires InBounds(|st.stored|, |input|)
  {
    var s := |st.stored|;
    if s % 2 == 1 && |input| + s >= BLOCK_SIZE then
      var rest := input[BLOCK_SIZE - s..];
      Stream(st.blocks + [st.stored + input[..BLOCK_SIZE - s]] + Blocks(rest), Tail(rest))
    else
      Stream(st.blocks + Blocks(input), if Tail(input) == [] then [] else st.stored + Tail(input))
  }

  /** The copies of the code stay inside the 64-byte block and the 128-byte store. */
  predicate InBounds(stored: nat, length: nat) {
    if stored % 2 == 1 && length + stored >= BLOCK_SIZE then stored < BLOCK_SIZE
    else stored + length % BLOCK_SIZE <= 2 * BLOCK_SIZE
  }

  /** The calls for which the guard and the emptied store do no harm. */
  predicate SafeCall(stored: nat, length: nat) {
    stored == 0 || (length > 0 && (stored % 2 == 1 || stored + length < BLOCK_SIZE))
  }

  lemma SafeCallIsIntended(st: Stream, input: seq<Byte>)
    requires |st.stored| < BLOCK_SIZE && SafeCall(|st.stored|, |input|)
    ensures Literal(st, input) == Intended(st, input)
  {
    if |st.stored| == 0 {
      assert st.stored + input == input;
    } else if |st.stored| + |input| < BLOCK_SIZE {
      ShortIsTail(input);
      ShortIsTail(st.stored + input);
    } else {
      FirstBlock(st.stored, input);
    }
  }

  lemma ShortIsTail(s: seq<Byte>)
    requires |s| < BLOCK_SIZE
    ensures Tail(s) == s && Blocks(s) == []
  {
  }

  lemma FirstBlock(stored: seq<Byte>, input: seq<Byte>)
    requires |stored| < BLOCK_SIZE <= |stored| + |input|
    ensures var rest := input[BLOCK_SIZE - |stored|..];
            Blocks(stored + input) == [stored + input[..BLOCK_SIZE - |stored|]] + Blocks(rest)
                && Tail(stored + input) == Tail(rest)
  {
    var all := stored + input;
    assert all[..BLOCK_SIZE] == stored + input[..BLOCK_SIZE - |stored|];
    assert all[BLOCK_SIZE..] == input[BLOCK_SIZE - |stored|..];
  }

  function Fill(n: nat, b: Byte): (r: seq<Byte>)
    ensures |r| == n
  {
    seq(n, _ => b)
  }

  lemma UnsafeCallDiffers(st: Stream, s: nat, n: nat)
    requires s < BLOCK_SIZE && !SafeCall(s, n)
    requires st.stored == Fill(s, 1)
    ensures Literal(st, Fill(n, 0)) != Intended(st, Fill(n, 0))
  {
    var all := Fill(s, 1) + Fill(n, 0);
    if n == 0 {
      assert all == Fill(s, 1);
    } else {
      assert Blocks(all)[0][0] == all[0] == 1;
      if n >= BLOCK_SIZE {
        assert Blocks(Fill(n, 0))[0][0] == 0;
        assert Intended(st, Fill(n, 0)).blocks[|st.blocks|][0] == 1;
        assert Literal(st, Fill(n, 0)).blocks[|st.blocks|][0] == 0;
      }
    }
  }

  /** One call does what the comments say, whatever the bytes, exactly when it is safe. */
  lemma CallIsIntendedIff(s: nat, n: nat)
    requires s < BLOCK_SIZE
    ensures (forall st: Stream, input: seq<Byte> ::
               |st.stored| == s && |input| == n ==> Literal(st, input) == Intended(st, input))
            <==> SafeCall(s, n)
  {
    if SafeCall(s, n) {
      forall st: Stream, input: seq<Byte> | |st.stored| == s && |input| == n
        ensures Literal(st, input) == Intended(st, input)
      {
        SafeCallIsIntended(st, input);
      }
    } else {
      UnsafeCallDiffers(Stream([], Fill(s, 1)), s, n);
    }
  }

  // ---------- A run of calls ----------

  function Concat(chunks: seq<seq<Byte>>): seq<Byte> {
    if chunks == [] then [] else Concat(chunks[..|chunks| - 1]) + chunks[|chunks| - 1]
  }

  function Sum(sizes: seq<nat>): nat {
    if sizes == [] then 0 else Sum(sizes[..|sizes| - 1]) + sizes[|sizes| - 1]
  }

  /** Every call of the run is safe, the store holding what the earlier ones left over. */
  predicate SafeRun(sizes: seq<nat>) {
    sizes == [] ||
    (SafeRun(sizes[..|sizes| - 1]) && SafeCall(Sum(sizes[..|sizes| - 1]) % BLOCK_SIZE, sizes[|sizes| - 1]))
  }

  function Sizes(chunks: seq<seq<Byte>>): (r: seq<nat>)
    ensures |r| == |chunks|
  {
    seq(|chunks|, k requires 0 <= k < |chunks| => |chunks[k]|)
  }

  /** The state after the calls with these chunks, unless one of them would leave the store's bounds. */
  function LiteralRun(chunks: seq<seq<Byte>>): Option<Stream> {
    if chunks == [] then Some(FRESH)
    else
      var before := LiteralRun(chunks[..|chunks| - 1]);
      var last := chunks[|chunks| - 1];
      if before.Some? && InBounds(|before.value.stored|, |last|) then Some(Literal(before.value, last)) else None
  }

  /** The state that belongs to a message, however it arrived. */
  function Whole(message: seq<Byte>): Stream {
    Stream(Blocks(message), Tail(message))
  }

  lemma IntendedExtends(message: seq<Byte>, input: seq<Byte>)
    ensures Intended(Whole(message), input) == Whole(message + input)
  {
    CutInTwo(message, input);
  }

  lemma {:induction false} SumOfSizes(chunks: seq<seq<Byte>>)
    ensures Sum(Sizes(chunks)) == |Concat(chunks)|
  {
    if chunks != [] {
      SumOfSizes(chunks[..|chunks| - 1]);
      assert Sizes(chunks)[..|chunks| - 1] == Sizes(chunks[..|chunks| - 1]);
    }
  }

  /** A run of safe calls is independent of how the message was split. */
  lemma {:induction false} SafeRunIsWhole(chunks: seq<seq<Byte>>)
    requires SafeRun(Sizes(chunks))
    ensures LiteralRun(chunks) == Some(Whole(Concat(chunks)))
  {
    if chunks != [] {
      var before := chunks[..|chunks| - 1];
      var last := chunks[|chunks| - 1];
      assert Sizes(chunks)[..|chunks| - 1] == Sizes(before);
      SafeRunIsWhole(before);
      SumOfSizes(before);
      CutSizes(Concat(before));
      SafeCallIsIntended(Whole(Concat(before)), last);
      IntendedExtends(Concat(before), last);
    }
  }

  // ---------- What an unsafe call spoils stays spoilt ----------

  function Held(st: Stream): nat {
    BLOCK_SIZE * |st.blocks| + |st.stored|
  }

  /**
   The state has lost bytes of the message, or has a block that does not begin as that of the message
   does, or has stored the bytes of a whole block, the first of which is a one.
   */
  ghost predicate Wrong(st: Stream, message: seq<Byte>) {
    || Held(st) < |message|
    || (exists j: nat :: Differs(st, message, j))
    || (Held(st) == |message| && |st.stored| >= BLOCK_SIZE && message[BLOCK_SIZE * |st.blocks|] == 1)
  }

  predicate Differs(st: Stream, message: seq<Byte>, j: nat) {
    j < |st.blocks| && BLOCK_SIZE * (j + 1) <= |message| && st.blocks[j] != []
        && st.blocks[j][0] != message[BLOCK_SIZE * j]
  }

  lemma {:induction false} BlockBegins(s: seq<Byte>, j: nat)
    requires j < |Blocks(s)|
    ensures BLOCK_SIZE * (j + 1) <= |s| && |Blocks(s)[j]| == BLOCK_SIZE && Blocks(s)[j][0] == s[BLOCK_SIZE * j]
  {
    if j > 0 {
      BlockBegins(s[BLOCK_SIZE..], j - 1);
    }
  }

  lemma WrongIsNotWhole(st: Stream, message: seq<Byte>)
    requires Wrong(st, message)
    ensures st != Whole(message)
  {
    CutSizes(message);
    if j: nat :| Differs(st, message, j) {
      if st == Whole(message) {
        BlockBegins(message, j);
      }
    }
  }

  /** How a call changes the number of bytes held, and what it adds to the blocks. */
  lemma LiteralHolds(st: Stream, input: seq<Byte>)
    requires InBounds(|st.stored|, |input|)
    ensures var r := Literal(st, input);
            && Held(r) <= Held(st) + |input| && st.blocks <= r.blocks
            && (Held(r) == Held(st) + |input| || r.stored == [])
  {
    CutSizes(input);
    var s := |st.stored|;
    if s % 2 == 1 && |input| + s >= BLOCK_SIZE {
      CutSizes(input[BLOCK_SIZE - s..]);
    }
  }

  lemma WrongStays(st: Stream, message: seq<Byte>, n: nat)
    requires Wrong(st, message) && InBounds(|st.stored|, n)
    ensures Wrong(Literal(st, Fill(n, 0)), message + Fill(n, 0))
  {
    var zeros := Fill(n, 0);
    var r, longer := Literal(st, zeros), message + zeros;
    LiteralHolds(st, zeros);
    if j: nat :| Differs(st, message, j) {
      assert r.blocks[j] == st.blocks[j];
      assert Differs(r, longer, j);
    } else if Held(st) == |message| {
      StoredTooMuch(st, message, n);
    }
  }

  /** With a whole block of stored bytes, the next blocks overtake them, or they are lost, or they stay. */
  lemma StoredTooMuch(st: Stream, message: seq<Byte>, n: nat)
    requires Held(st) == |message| && |st.stored| > 0 && |st.stored| % 2 == 0 && message[BLOCK_SIZE * |st.blocks|] == 1
    requires InBounds(|st.stored|, n) && |st.stored| + n >= BLOCK_SIZE
    ensures Wrong(Literal(st, Fill(n, 0)), message + Fill(n, 0))
  {
    var zeros := Fill(n, 0);
    var r, longer := Literal(st, zeros), message + zeros;
    CutSizes(zeros);
    if n >= BLOCK_SIZE {
      BlockBegins(zeros, 0);
      assert r.blocks[|st.blocks|] == Blocks(zeros)[0];
      assert Differs(r, longer, |st.blocks|);
    } else if n > 0 {
      ShortIsTail(zeros);
      assert r == Stream(st.blocks + [], st.stored + zeros);
      assert longer[BLOCK_SIZE * |r.blocks|] == 1;
    }
  }

  lemma UnsafeIsWrong(message: seq<Byte>, n: nat)
    requires message == Fill(|message|, 1) && !SafeCall(|message| % BLOCK_SIZE, n)
    requires InBounds(|message| % BLOCK_SIZE, n)
    ensures |Whole(message).stored| == |message| % BLOCK_SIZE
    ensures Wrong(Literal(Whole(message), Fill(n, 0)), message + Fill(n, 0))
  {
    CutSizes(message);
    var st := Whole(message);
    if n > 0 {
      StoredTooMuch(st, message, n);
    }
  }

  function Ones(sizes: seq<nat>): (r: seq<seq<Byte>>)
    ensures |r| == |sizes| && Sizes(r) == sizes
  {
    var r := seq(|sizes|, k requires 0 <= k < |sizes| => Fill(sizes[k], 1));
    assert Sizes(r) == sizes;
    r
  }

  lemma {:induction false} ConcatOnes(sizes: seq<nat>)
    ensures Concat(Ones(sizes)) == Fill(Sum(sizes), 1)
  {
    if sizes != [] {
      ConcatOnes(sizes[..|sizes| - 1]);
      assert Ones(sizes)[..|sizes| - 1] == Ones(sizes[..|sizes| - 1]);
    }
  }

  /** Ones as long as the calls are safe, and zeros from the first one on that is not. */
  lemma {:induction false} UnsafeRunGoesWrong(sizes: seq<nat>) returns (chunks: seq<seq<Byte>>)
    requires !SafeRun(sizes)
    ensures Sizes(chunks) == sizes
    ensures LiteralRun(chunks).Some? ==> Wrong(LiteralRun(chunks).value, Concat(chunks))
  {
    var sizes0, n := sizes[..|sizes| - 1], sizes[|sizes| - 1];
    var before;
    if SafeRun(sizes0) {
      before := Ones(sizes0);
      ConcatOnes(sizes0);
      SafeRunIsWhole(before);
      CutSizes(Concat(before));
      if InBounds(Sum(sizes0) % BLOCK_SIZE, n) {
        UnsafeIsWrong(Concat(before), n);
      }
    } else {
      before := UnsafeRunGoesWrong(sizes0);
      if LiteralRun(before).Some? && InBounds(|LiteralRun(before).value.stored|, n) {
        WrongStays(LiteralRun(before).value, Concat(before), n);
      }
    }
    chunks := before + [Fill(n, 0)];
    assert chunks[..|chunks| - 1] == before;
    assert sizes == sizes0 + [n];
    assert Sizes(chunks) == Sizes(before) + [n];
  }

  /**
   Chunking independence of the code as written: for every list of chunk sizes, the object holds the
   whole message at the end, whatever the bytes are, exactly when every call is safe.
   */
  lemma RunIsWholeIff(sizes: seq<nat>)
    ensures (forall chunks :: Sizes(chunks) == sizes ==> LiteralRun(chunks) == Some(Whole(Concat(chunks))))
        <==> SafeRun(sizes)
  {
    if SafeRun(sizes) {
      forall chunks | Sizes(chunks) == sizes
        ensures LiteralRun(chunks) == Some(Whole(Concat(chunks)))
      {
        SafeRunIsWhole(chunks);
      }
    } else {
      var chunks := UnsafeRunGoesWrong(sizes);
      if LiteralRun(chunks).Some? {
        WrongIsNotWhole(LiteralRun(chunks).value, Concat(chunks));
      }
    }
  }

  // ---------- Sums in 32 bits ----------

  /** Completing a stored block starts the input behind the bytes taken; the sum of the guard is cut to 32 bits. */
  function CursorStart(stored: nat, length: nat): nat {
    if stored % 2 == 1 && stored < BLOCK_SIZE <= (length + stored) % TWO_32 then BLOCK_SIZE - stored else 0
  }

  /** The loop over whole blocks stops after k of them, its sum being cut to 32 bits. */
  predicate StopsAfter(start: nat, k: nat, length: nat) {
    (start + BLOCK_SIZE * k + BLOCK_SIZE) % TWO_32 > length
  }

  predicate Fits(stored: nat, length: nat) {
    (if stored % 2 == 1 then stored else BLOCK_SIZE) + length < TWO_32
  }

  /** The loop over whole blocks ends exactly when the input keeps this distance from 2^32. */
  lemma LoopEndsIff(stored: nat, length: nat)
    requires length < TWO_32 && InBounds(stored, length)
    ensures (exists k: nat :: StopsAfter(CursorStart(stored, length), k, length)) <==> Fits(stored, length)
  {
    var start := CursorStart(stored, length);
    if Fits(stored, length) {
      var k := if length < start then 0 else (length - start) / BLOCK_SIZE;
      LastBlockEnds(start, length, stored);
      assert StopsAfter(start, k, length);
    } else {
      forall k: nat
        ensures !StopsAfter(start, k, length)
      {
        Remainder(BLOCK_SIZE * k + BLOCK_SIZE, TWO_32, (k + 1) / 0x400_0000, BLOCK_SIZE * ((k + 1) % 0x400_0000));
      }
    }
  }

  /** The cursor behind the block after the last whole one. */
  function Beyond(start: nat, length: nat): nat
    requires start <= length
  {
    length - (length - start) % BLOCK_SIZE + BLOCK_SIZE
  }

  lemma LastBlockEnds(start: nat, length: nat, stored: nat)
    requires InBounds(stored, length) && Fits(stored, length) && start == CursorStart(stored, length)
    ensures start <= length && Beyond(start, length) < TWO_32
    ensures start == if stored % 2 == 1 && length + stored >= BLOCK_SIZE then BLOCK_SIZE - stored else 0
  {
    if start > 0 {
      var q := (length + stored) / BLOCK_SIZE;
      assert length - start == BLOCK_SIZE * (q - 1) + (length + stored) % BLOCK_SIZE;
    }
  }

  /** Every chunk of a run keeps that distance. */
  predicate RunFits(sizes: seq<nat>) {
    forall k :: 0 <= k < |sizes| ==> Fits(Sum(sizes[..k]) % BLOCK_SIZE, sizes[k])
  }

  // ---------- A file read in pieces ----------

  /** What the reads of a file of n bytes may return until all of it is read. */
  predicate AreReads(n: nat, blocSize: nat, sizes: seq<nat>) {
    Sum(sizes) == n && forall k :: 0 <= k < |sizes| ==> 0 < sizes[k] <= blocSize
  }

  lemma {:induction false} SumOfPrefix(sizes: seq<nat>, k: nat)
    requires k < |sizes|
    ensures Sum(sizes[..k]) + sizes[k] == Sum(sizes[..k + 1]) <= Sum(sizes)
  {
    var init := sizes[..|sizes| - 1];
    if k < |init| {
      SumOfPrefix(init, k);
      assert init[..k] == sizes[..k] && init[..k + 1] == sizes[..k + 1];
    } else {
      assert sizes[..k + 1] == sizes;
    }
  }

  /** Chunks of whole blocks, and a last one of any size. */
  lemma {:induction false} WholeBlocksAreSafe(sizes: seq<nat>)
    requires forall k :: 0 <= k < |sizes| - 1 ==> sizes[k] % BLOCK_SIZE == 0
    ensures SafeRun(sizes)
    ensures (sizes != [] ==> sizes[|sizes| - 1] % BLOCK_SIZE == 0) ==> Sum(sizes) % BLOCK_SIZE == 0
  {
    if sizes != [] {
      var init := sizes[..|sizes| - 1];
      WholeBlocksAreSafe(init);
      SumOfBlocks(Sum(init), sizes[|sizes| - 1]);
    }
  }

  lemma SumOfBlocks(m: nat, n: nat)
    requires m % BLOCK_SIZE == 0
    ensures n % BLOCK_SIZE == 0 ==> (m + n) % BLOCK_SIZE == 0
  {
  }

  /** Bytes one by one. */
  lemma {:induction false} SinglesAreSafe(sizes: seq<nat>)
    requires forall k :: 0 <= k < |sizes| ==> sizes[k] == 1
    ensures SafeRun(sizes)
  {
    if sizes != [] {
      SinglesAreSafe(sizes[..|sizes| - 1]);
    }
  }

  /** A run is safe when each call is, after the bytes of those before it. */
  lemma {:induction false} SafeRunAt(sizes: seq<nat>, k: nat)
    requires k < |sizes|
    ensures SafeRun(sizes) ==> SafeCall(Sum(sizes[..k]) % BLOCK_SIZE, sizes[k])
  {
    var init := sizes[..|sizes| - 1];
    if k < |sizes| - 1 {
      SafeRunAt(init, k);
      assert init[..k] == sizes[..k];
    }
  }

  /** The reads of a file of n bytes: as much as the block size, or as is left. */
  function FullReads(n: nat, blocSize: nat): seq<nat>
    requires blocSize > 0
  {
    if n == 0 then []
    else
      var toRead := if n < blocSize then n else blocSize;
      [toRead] + FullReads(n - toRead, blocSize)
  }

  lemma {:induction false} SumFromFirst(sizes: seq<nat>)
    requires sizes != []
    ensures Sum(sizes) == sizes[0] + Sum(sizes[1..])
  {
    var init := sizes[..|sizes| - 1];
    if init != [] {
      SumFromFirst(init);
      assert sizes[1..][..|sizes| - 2] == init[1..];
    }
  }

  /** All of them but the last are of the block size, and together they are the file. */
  lemma {:induction false} FullReadsAre(n: nat, blocSize: nat)
    requires blocSize > 0
    ensures var sizes := FullReads(n, blocSize);
            AreReads(n, blocSize, sizes) && forall k :: 0 <= k < |sizes| - 1 ==> sizes[k] == blocSize
  {
    if n > 0 {
      var sizes := FullReads(n, blocSize);
      var rest := FullReads(n - sizes[0], blocSize);
      FullReadsAre(n - sizes[0], blocSize);
      SumFromFirst(sizes);
      assert sizes[1..] == rest;
      assert forall k :: 1 <= k < |sizes| ==> sizes[k] == rest[k - 1];
    }
  }

  lemma FirstOfFullReads(n: nat, blocSize: nat)
    requires blocSize > 0
    ensures FullReads(n + blocSize, blocSize) == [blocSize] + FullReads(n, blocSize)
  {
  }

  /** A file of k + 1 whole reads has a read after k of them, which make up n bytes. */
  lemma {:induction false} FullReadsOfMultiple(k: nat, blocSize: nat, n: nat)
    requires blocSize > 0 && n == k * blocSize
    ensures var sizes := FullReads(n + blocSize, blocSize);
            |sizes| == k + 1 && sizes[k] == blocSize && Sum(sizes[..k]) == n
  {
    FirstOfFullReads(n, blocSize);
    if k == 0 {
      assert FullReads(0, blocSize) == [];
    } else {
      var rest := FullReads(n, blocSize);
      TimesMonotone(blocSize, 1, k);
      FullReadsOfMultiple(k - 1, blocSize, n - blocSize);
      SumOfLonger(blocSize, rest[..k - 1]);
      assert ([blocSize] + rest)[..k] == [blocSize] + rest[..k - 1];
    }
  }

  lemma SumOfLonger(first: nat, sizes: seq<nat>)
    ensures Sum([first] + sizes) == first + Sum(sizes)
  {
    SumFromFirst([first] + sizes);
    assert ([first] + sizes)[1..] == sizes;
  }

  /** For any other block size there is a call that the guard fails. */
  lemma UnsafeRead(blocSize: nat) returns (k: nat)
    requires blocSize % BLOCK_SIZE != 0 && blocSize != 1
    ensures !SafeCall(k * blocSize % BLOCK_SIZE, blocSize)
  {
    if blocSize % 2 == 1 {
      k := OddSize(blocSize);
      NotSafe(k * blocSize % BLOCK_SIZE, blocSize);
    } else if blocSize < BLOCK_SIZE {
      k := EvenSize(blocSize);
      NotSafe(k * blocSize % BLOCK_SIZE, blocSize);
    } else {
      k := 1;
    }
  }

  lemma NotSafe(stored: nat, length: nat)
    requires 0 < stored < BLOCK_SIZE <= stored + length && stored % 2 == 0
    ensures !SafeCall(stored, length)
  {
  }

  lemma EvenSize(b: nat) returns (k: nat)
    requires 0 < b < BLOCK_SIZE && b % 2 == 0
    ensures var stored := k * b % BLOCK_SIZE; 0 < stored && stored % 2 == 0 && BLOCK_SIZE <= stored + b
  {
    k := (BLOCK_SIZE - 1) / b;
    assert BLOCK_SIZE - 1 == k * b + (BLOCK_SIZE - 1) % b;
    TimesMonotone(b, 1, k);
    EvenMultiple(k, b);
  }

  lemma EvenMultiple(k: nat, even: nat)
    requires even % 2 == 0
    ensures k * even % 2 == 0
  {
    assert k * even == 2 * (k * (even / 2));
  }

  /** The square of an odd b is one more than a multiple of 8; hence 2 b (b^2 - 2) times b is 62, modulo 64. */
  lemma OddSize(b: nat) returns (k: nat)
    requires b % 2 == 1 && b > 1
    ensures k * b % BLOCK_SIZE == BLOCK_SIZE - 2
  {
    var c := b / 2;
    EvenProduct(c);
    var u := c * (c + 1) / 2;
    var w := 8 * u;
    assert b * b == 4 * (c * (c + 1)) + 1 == w + 1;
    k := 2 * b * (w - 1);
    SquareOfOdd(b, u);
    TimesMonotone(u, 1, u);
    Remainder(k * b, BLOCK_SIZE, 2 * (u * u) - 1, BLOCK_SIZE - 2);
  }

  lemma SquareOfOdd(b: nat, u: nat)
    requires b * b == 8 * u + 1
    ensures 2 * b * (8 * u - 1) * b == BLOCK_SIZE * (2 * (u * u) - 1) + (BLOCK_SIZE - 2)
  {
    assert 2 * b * (8 * u - 1) * b == 2 * ((b * b) * (8 * u - 1));
    assert (8 * u + 1) * (8 * u - 1) == 64 * (u * u) - 1;
  }

  lemma EvenProduct(c: nat)
    ensures c * (c + 1) % 2 == 0
  {
    if c % 2 == 0 {
      EvenMultiple(c + 1, c);
      assert c * (c + 1) == (c + 1) * c;
    } else {
      EvenMultiple(c, c + 1);
    }
  }

  /**
   Full reads of a file are safe, whatever its length, exactly when the block size is a multiple of
   that of the hash, or one.
   */
  lemma FullReadsAreSafeIff(blocSize: nat)
    requires blocSize > 0
    ensures (forall n: nat :: SafeRun(FullReads(n, blocSize))) <==> blocSize % BLOCK_SIZE == 0 || blocSize == 1
  {
    if blocSize % BLOCK_SIZE == 0 || blocSize == 1 {
      forall n: nat
        ensures SafeRun(FullReads(n, blocSize))
      {
        FullReadsAre(n, blocSize);
        if blocSize == 1 {
          SinglesAreSafe(FullReads(n, 1));
        } else {
          WholeBlocksAreSafe(FullReads(n, blocSize));
        }
      }
    } else {
      var k := UnsafeRead(blocSize);
      FullReadsOfMultiple(k, blocSize, k * blocSize);
      SafeRunAt(FullReads(k * blocSize + blocSize, blocSize), k);
    }
  }

  /** A file of 200 bytes read by 100: the second call does not see that 36 bytes are stored. */
  lemma TwoHundredByHundred()
    ensures FullReads(200, 100) == [100, 100] && !SafeRun([100, 100])
    ensures exists chunks :: Sizes(chunks) == [100, 100] && LiteralRun(chunks) != Some(Whole(Concat(chunks)))
  {
    assert FullReads(0, 100) == [] && FullReads(100, 100) == [100];
    SumOfOne(100);
    assert !SafeCall(Sum([100]) % BLOCK_SIZE, 100);
    assert [100, 100][..1] == [100];
    RunIsWholeIff([100, 100]);
  }

  /** What the object holds then: the second block is not the one that follows, and 72 bytes are stored. */
  lemma TwoHundredHeld(x: seq<Byte>, y: seq<Byte>)
    requires |x| == |y| == 100
    ensures LiteralRun([x, y]) == Some(Stream([x[..64], y[..64]], x[64..] + y[64..]))
  {
    OneBlock(x);
    OneBlock(y);
    assert [] + x[64..] == x[64..] && [] + [x[..64]] == [x[..64]];
    assert Literal(FRESH, x) == Stream([x[..64]], x[64..]) && [x[..64]] + [y[..64]] == [x[..64], y[..64]];
    RunOfTwo(x, y);
  }

  /** And an input of whole blocks, or an empty one, loses what is stored, if that is even in number. */
  lemma WholeBlockForgets(x: seq<Byte>, y: seq<Byte>)
    requires |x| < BLOCK_SIZE && |x| % 2 == 0 && (|y| == 0 || |y| == 64)
    ensures LiteralRun([x, y]) == Some(Stream(if y == [] then [] else [y], []))
  {
    ShortIsTail(x);
    assert [] + x == x;
    assert Literal(FRESH, x) == Stream([], x);
    if y != [] {
      OneBlock(y);
      assert y[..64] == y && y[64..] == [];
      assert [] + [y] == [y];
    }
    RunOfTwo(x, y);
  }

  lemma OneBlock(s: seq<Byte>)
    requires BLOCK_SIZE <= |s| < 2 * BLOCK_SIZE
    ensures Blocks(s) == [s[..64]] && Tail(s) == s[64..]
  {
    ShortIsTail(s[64..]);
    assert [s[..64]] + [] == [s[..64]];
  }

  lemma RunOfTwo(x: seq<Byte>, y: seq<Byte>)
    requires InBounds(0, |x|) && InBounds(|Literal(FRESH, x).stored|, |y|)
    ensures LiteralRun([x, y]) == Some(Literal(Literal(FRESH, x), y))
  {
    assert [x, y][..1] == [x] && [x][..0] == [];
    assert LiteralRun([x]) == Some(Literal(FRESH, x));
  }

  lemma SumOfOne(n: nat)
    ensures Sum([n]) == n
  {
    assert Sum([n][..0]) == 0;
  }

  // ---------- Padding ----------

  /** Eight bytes, low byte first: section 3.2 of RFC 1321. */
  function LittleEndian(n: nat, bytes: nat): (r: seq<Byte>)
    ensures |r| == bytes
    decreases bytes, n
  {
    if bytes == 0 then [] else [n % 256] + LittleEndian(n / 256, bytes - 1)
  }

  /** How many padding bytes follow a message of n bytes. */
  function PadLength(n: nat): (r: nat)
    ensures 1 <= r <= BLOCK_SIZE && (n + r) % BLOCK_SIZE == BLOCK_SIZE - 8
  {
    if n % BLOCK_SIZE < BLOCK_SIZE - 8 then BLOCK_SIZE - 8 - n % BLOCK_SIZE else 2 * BLOCK_SIZE - 8 - n % BLOCK_SIZE
  }

  const TWO_64: nat := 0x1_0000_0000_0000_0000

  /** The length of n bytes in bits, of which eight bytes keep the low 64 bits. */
  function LengthBytes(n: nat): (r: seq<Byte>)
    ensures |r| == 8
  {
    LittleEndian(8 * n, 8)
  }

  lemma LengthBytesWrap(n: nat)
    ensures LengthBytes(n) == LittleEndian(8 * n % TWO_64, 8)
  {
    Power256Of8();
    LittleEndianWraps(8 * n, 8);
  }

  function Padding(n: nat): (r: seq<Byte>)
    ensures |r| == PadLength(n) + 8
  {
    [0x80] + Fill(PadLength(n) - 1, 0) + LengthBytes(n)
  }

  lemma PadLengthOfTail(blocks: nat, stored: nat)
    ensures PadLength(BLOCK_SIZE * blocks + stored) == PadLength(stored)
  {
  }

  /** The padded message of sections 3.1 and 3.2 of RFC 1321. */
  function Pad(message: seq<Byte>): (r: seq<Byte>)
  {
    message + Padding(|message|)
  }

  /** The padding is the shortest that leaves room for the length. */
  lemma PaddingIsShortest(n: nat, r: nat)
    requires r >= 1 && (n + r + 8) % BLOCK_SIZE == 0
    ensures PadLength(n) <= r
  {
  }

  lemma PadFillsBlocks(n: nat)
    ensures (n + PadLength(n) + 8) % BLOCK_SIZE == 0
  {
  }

  lemma {:induction false} LittleEndianInjective(a: nat, b: nat, bytes: nat)
    requires LittleEndian(a, bytes) == LittleEndian(b, bytes)
    ensures a % Power256(bytes) == b % Power256(bytes)
  {
    if bytes > 0 {
      assert LittleEndian(a, bytes)[1..] == LittleEndian(a / 256, bytes - 1);
      assert LittleEndian(b, bytes)[1..] == LittleEndian(b / 256, bytes - 1);
      LittleEndianInjective(a / 256, b / 256, bytes - 1);
      assert a % 256 == LittleEndian(a, bytes)[0] == LittleEndian(b, bytes)[0] == b % 256;
      var p := Power256(bytes - 1);
      SplitMod(a, p);
      SplitMod(b, p);
    }
  }

  function Power256(n: nat): (r: nat)
    ensures r > 0
  {
    if n == 0 then 1 else 256 * Power256(n - 1)
  }

  lemma SplitMod(a: nat, p: nat)
    requires p > 0
    ensures a % (256 * p) == 256 * (a / 256 % p) + a % 256
  {
    var q := a / 256;
    var d := q / p;
    assert a == 256 * q + a % 256 && q == p * d + q % p;
    assert a == (256 * p) * d + (256 * (q % p) + a % 256);
    assert 256 * (q % p) + a % 256 < 256 * p;
    Remainder(a, 256 * p, d, 256 * (q % p) + a % 256);
  }

  /** No two messages have the same padded form. */
  lemma PadInjective(x: seq<Byte>, y: seq<Byte>)
    requires Pad(x) == Pad(y)
    ensures x == y
  {
    LengthIsLast(x);
    LengthIsLast(y);
    LittleEndianInjective(8 * |x|, 8 * |y|, 8);
    Power256Of8();
    SameLength(|x|, |y|);
    assert x == Pad(x)[..|x|] && y == Pad(y)[..|y|];
  }

  lemma LengthIsLast(x: seq<Byte>)
    ensures Pad(x)[|Pad(x)| - 8..] == LengthBytes(|x|)
  {
  }

  lemma SameLength(m: nat, n: nat)
    requires m + PadLength(m) == n + PadLength(n)
    requires 8 * m % TWO_64 == 8 * n % TWO_64
    ensures m == n
  {
    assert -64 < m - n < 64;
    assert 8 * m - 8 * n == TWO_64 * (8 * m / TWO_64 - 8 * n / TWO_64);
  }

  lemma Power256Of8()
    ensures Power256(8) == TWO_64 && Power256(4) == TWO_32
  {
    assert Power256(2) == 0x10000;
    assert Power256(4) == 0x10000 * Power256(2);
    assert Power256(8) == 0x1_0000_0000 * Power256(4);
  }

  /** Two messages that are hashed over the same blocks are the same message. */
  lemma BlocksOfPadInjective(x: seq<Byte>, y: seq<Byte>)
    requires Blocks(Pad(x)) == Blocks(Pad(y))
    ensures x == y
  {
    PadIsBlocks(x);
    PadIsBlocks(y);
    PadInjective(x, y);
  }

  lemma PadIsBlocks(x: seq<Byte>)
    ensures Flat(Blocks(Pad(x))) == Pad(x)
  {
    CutIsWhole(Pad(x));
    CutSizes(Pad(x));
    PadFillsBlocks(|x|);
  }

  /** What the object holds at the end, closed by the padding, cuts into the rest of the padded message. */
  lemma ClosingBlocks(message: seq<Byte>)
    ensures Blocks(Pad(message)) == Blocks(message) + Blocks(Tail(message) + Padding(|message|))
  {
    CutInTwo(message, Padding(|message|));
  }

  /** It is one more block when the length still fits into the last one, and two otherwise. */
  lemma ClosingCount(message: seq<Byte>)
    ensures |Blocks(Pad(message))|
        == |message| / BLOCK_SIZE + (if |message| % BLOCK_SIZE < BLOCK_SIZE - 8 then 1 else 2)
  {
    CutSizes(Pad(message));
  }

  // ---------- The two-word counter ----------

  /** The low and the high word of a count of bytes, which is kept modulo 2^64. */
  function LowWord(n: nat): nat { n % TWO_32 }

  function HighWord(n: nat): nat { n / TWO_32 % TWO_32 }

  /** Adding to the low word and carrying when the sum has wrapped keeps the count. */
  lemma CarryKeepsCount(n: nat, add: nat)
    requires add < TWO_32
    ensures LowWord(n + add) == (LowWord(n) + add) % TWO_32
    ensures HighWord(n + add) == if LowWord(n + add) < LowWord(n) then (HighWord(n) + 1) % TWO_32 else HighWord(n)
  {
    var q := n / TWO_32;
    var low := n % TWO_32 + add;
    if low < TWO_32 {
      Remainder(n + add, TWO_32, q, low);
    } else {
      Remainder(n + add, TWO_32, q + 1, low - TWO_32);
      NextWraps(q);
    }
  }

  lemma NextWraps(q: nat)
    ensures (q + 1) % TWO_32 == (q % TWO_32 + 1) % TWO_32
  {
  }

  /** The two words that `finish` derives from the counter are the length in bits. */
  lemma LengthInBits(n: nat)
    ensures LowWord(8 * n) == LowWord(n) % 0x2000_0000 * 8
    ensures HighWord(8 * n) == HighWord(n) * 8 % TWO_32 + LowWord(n) / 0x2000_0000
  {
    var q := n / TWO_32;
    var top := n % TWO_32 / 0x2000_0000;
    var g := q % TWO_32;
    Remainder(8 * n, TWO_32, 8 * q + top, n % TWO_32 % 0x2000_0000 * 8);
    Remainder(8 * g, TWO_32, g / 0x2000_0000, g % 0x2000_0000 * 8);
    Remainder(8 * q + top, TWO_32, 8 * (q / TWO_32) + g / 0x2000_0000, g % 0x2000_0000 * 8 + top);
  }

  lemma LengthField(n: nat)
    ensures LittleEndian(n, 8) == LittleEndian(LowWord(n), 4) + LittleEndian(HighWord(n), 4)
  {
    Power256Of8();
    LittleEndianSplits(n, 4, 4);
    AboveFour(n);
    LittleEndianWraps(n, 4);
    LittleEndianWraps(n / TWO_32, 4);
  }

  lemma {:induction false} LittleEndianWraps(n: nat, bytes: nat)
    ensures LittleEndian(n % Power256(bytes), bytes) == LittleEndian(n, bytes)
  {
    if bytes > 0 {
      var p := Power256(bytes - 1);
      SplitMod(n, p);
      LittleEndianWraps(n / 256, bytes - 1);
      Remainder(n % (256 * p), 256, n / 256 % p, n % 256);
    }
  }

  /** The number above its low bytes. */
  function Above(n: nat, bytes: nat): nat {
    if bytes == 0 then n else Above(n / 256, bytes - 1)
  }

  lemma {:induction false} LittleEndianSplits(n: nat, low: nat, high: nat)
    ensures LittleEndian(n, low + high) == LittleEndian(n, low) + LittleEndian(Above(n, low), high)
    decreases low
  {
    if low > 0 {
      LittleEndianSplits(n / 256, low - 1, high);
    }
  }

  lemma AboveFour(n: nat)
    ensures Above(n, 4) == n / TWO_32
  {
    assert Above(n, 4) == Above(n / 256, 3) == Above(n / 256 / 256, 2) == Above(n / 256 / 256 / 256, 1);
    assert Above(n, 4) == n / 256 / 256 / 256 / 256;
  }
}
