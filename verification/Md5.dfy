/**
 The streaming MD5 object of src/md5/md5.cpp, with its fields updated in place. The object runs
 `process_block` over a list of blocks; Md5Stream says which blocks they are, Md5Block what one of
 them does to the registers, and here the two meet: the signature of a message is that of its padded
 form, in whatever safe chunks it arrived.
 */
module Md5 {
  import opened Wrappers
  import opened Arithmetic
  import opened Md5Block
  import opened Md5Stream

  // ---------- The hash of a list of blocks ----------

  function Initial<W>(c: Coding<W>): Registers<W> {
    Registers(c.word(0x67452301), c.word(0xefcdab89), c.word(0x98badcfe), c.word(0x10325476))
  }

  /** The number of some bytes, low byte first. */
  function Value(bytes: seq<Byte>): nat {
    if bytes == [] then 0 else bytes[0] as nat + 0x100 * Value(bytes[1..])
  }

  /** The words of a block, as the host, which is little-endian, reads them. */
  function WordsOf<W>(c: Coding<W>, block: seq<Byte>): (x: seq<W>)
    requires |block| == BLOCK_SIZE
    ensures |x| == 16
  {
    seq(16, k requires 0 <= k < 16 => c.word(Value(block[4 * k..4 * k + 4])))
  }

  /** What a block does to the registers: section 3.4 of RFC 1321. */
  function Compress<W>(g: Steps<W>, c: Coding<W>): (Registers<W>, seq<Byte>) -> Registers<W> {
    (s: Registers<W>, block: seq<Byte>) => if |block| == BLOCK_SIZE then Block(g, c, WordsOf(c, block), s) else s
  }

  /** The blocks one after the other. */
  function Chained<S>(compress: (S, seq<Byte>) -> S, start: S, blocks: seq<seq<Byte>>): S {
    if blocks == [] then start
    else compress(Chained(compress, start, blocks[..|blocks| - 1]), blocks[|blocks| - 1])
  }

  lemma OneMoreBlock<S>(compress: (S, seq<Byte>) -> S, start: S, blocks: seq<seq<Byte>>, block: seq<Byte>)
    ensures Chained(compress, start, blocks + [block]) == compress(Chained(compress, start, blocks), block)
  {
    assert (blocks + [block])[..|blocks|] == blocks;
  }

  /** The four registers, low byte first: section 3.5 of RFC 1321. */
  function Signature<W>(c: Coding<W>, s: Registers<W>): (r: seq<Byte>)
    ensures |r| == 16
  {
    LittleEndian(c.value(s.a), 4) + LittleEndian(c.value(s.b), 4)
    + LittleEndian(c.value(s.c), 4) + LittleEndian(c.value(s.d), 4)
  }

  /** The signature of a message. */
  function Digest<W>(g: Steps<W>, c: Coding<W>, message: seq<Byte>): (r: seq<Byte>)
    ensures |r| == 16
  {
    Signature(c, Chained(Compress(g, c), Initial(c), Blocks(Pad(message))))
  }

  /** The unrolled steps on the words of a block. */
  method DigestBlock<W>(g: Steps<W>, c: Coding<W>, s: Registers<W>, block: seq<Byte>) returns (r: Registers<W>)
    requires |block| == BLOCK_SIZE
    ensures r == Compress(g, c)(s, block)
  {
    var X := WordsOf(c, block);
    r := ProcessWords(g, c, X, s);
  }

  /** The padding of the code: none for a store, as unsafe calls leave it, with room for the length only. */
  function PadBytes(stored: nat): (pad: seq<Byte>)
    ensures |pad| == if stored == 2 * BLOCK_SIZE - 8 then 0 else PadLength(stored)
  {
    if stored == 2 * BLOCK_SIZE - 8 then [] else [0x80] + Fill(PadLength(stored) - 1, 0)
  }

  /** What is stored, closed by padding and the length of the whole message. */
  function Closed(st: Stream): seq<Byte> {
    st.stored + PadBytes(|st.stored|) + LengthBytes(BLOCK_SIZE * |st.blocks| + |st.stored|)
  }

  /** Unless calls were unsafe, that is the padding that belongs to the whole message. */
  lemma ClosedIsPadded(st: Stream)
    requires |st.stored| < BLOCK_SIZE
    ensures Closed(st) == st.stored + Padding(BLOCK_SIZE * |st.blocks| + |st.stored|)
  {
    PadLengthOfTail(|st.blocks|, |st.stored|);
    Regroup(st.stored, PadBytes(|st.stored|), LengthBytes(BLOCK_SIZE * |st.blocks| + |st.stored|));
  }

  // Facts that are handed on whole; Look(0) takes them apart.

  ghost predicate IsWhole(st: Stream, message: seq<Byte>) {
    forall key {:trigger Look(key)} :: Look(key) ==> st == Whole(message)
  }

  ghost predicate ArePadded(blocks: seq<seq<Byte>>, message: seq<Byte>) {
    forall key {:trigger Look(key)} :: Look(key) ==> blocks == Blocks(Pad(message))
  }

  ghost predicate IsDigest<W(!new)>(signature: seq<Byte>, g: Steps<W>, c: Coding<W>, message: seq<Byte>) {
    forall key {:trigger Look(key)} :: Look(key) ==> signature == Digest(g, c, message)
  }

  lemma MessageClosed(st: Stream, message: seq<Byte>, all: seq<Byte>)
    requires IsWhole(st, message) && ClosesTo(st, all)
    ensures ArePadded(st.blocks + Blocks(all), message)
  {
    assert Look(0);
    HeldIsShort(st, message);
    ClosedIsPadded(st);
    HeldLength(message);
    ClosingBlocks(message);
  }

  lemma HeldIsShort(st: Stream, message: seq<Byte>)
    requires IsWhole(st, message)
    ensures |st.stored| < BLOCK_SIZE
  {
    assert Look(0);
    CutSizes(message);
  }

  lemma HeldLength(message: seq<Byte>)
    ensures var st := Whole(message); BLOCK_SIZE * |st.blocks| + |st.stored| == |message|
  {
    CutSizes(message);
  }

  lemma NextIsSafe(message: seq<Byte>, input: seq<Byte>)
    requires SafeCall(|message| % BLOCK_SIZE, |input|)
    ensures var st := Whole(message);
            |st.stored| == |message| % BLOCK_SIZE && InBounds(|st.stored|, |input|)
                && Literal(st, input) == Whole(message + input)
  {
    CutSizes(message);
    SafeCallIsIntended(Whole(message), input);
    IntendedExtends(message, input);
  }

  ghost predicate ClosesTo(st: Stream, all: seq<Byte>) {
    forall key {:trigger Look(key)} :: Look(key) ==> all == Closed(st)
  }

  ghost predicate IsPad(pad: seq<Byte>, n: nat) {
    forall key {:trigger Look(key)} :: Look(key) ==> pad == PadBytes(n)
  }

  ghost predicate IsLengthField(field: seq<Byte>, n: nat) {
    forall key {:trigger Look(key)} :: Look(key) ==> field == LengthBytes(n)
  }

  /** The loop over whole blocks, begun there, ends before its cursor wraps. */
  ghost predicate Ends(start: nat, length: nat) {
    forall key {:trigger Look(key)} :: Look(key) ==> start <= length && Beyond(start, length) < TWO_32
  }

  lemma ClosedInParts(st: Stream, pad: seq<Byte>, field: seq<Byte>)
    requires IsLengthField(field, BLOCK_SIZE * |st.blocks| + |st.stored|)
    requires IsPad(pad, |st.stored|)
    ensures ClosesTo(st, st.stored + pad + field)
  {
    assert Look(0);
  }

  // ---------- The object ----------

  class Context<W(!new)> {
    const g: Steps<W>
    const c: Coding<W>
    var A: W
    var B: W
    var C: W
    var D: W
    var lengthLow: nat
    var lengthHigh: nat
    var storedSize: nat
    const stored: array<Byte>
    var finished: bool
    var signature: seq<Byte>
    ghost var blocks: seq<seq<Byte>>
    ghost var extra: nat         // bytes counted that are not yet in a block
    ghost const compress: (Registers<W>, seq<Byte>) -> Registers<W>
    ghost const start: Registers<W>

    ghost predicate Valid()
      reads this
    {
      if finished then Sized() && Hashed() && Genuine() && Signed() else Running() && extra == 0
    }

    /** What holds until the signature is taken. */
    ghost predicate Running()
      reads this
    {
      !finished && Sized() && Counted() && Hashed() && Genuine()
    }

    ghost predicate Sized()
      reads this`storedSize
    {
      stored.Length == 2 * BLOCK_SIZE && storedSize <= 2 * BLOCK_SIZE
    }

    /** The counter holds the bytes of the blocks, modulo 2^64. */
    ghost predicate Counted()
      reads this`lengthLow, this`lengthHigh, this`blocks, this`extra
    {
      lengthLow == LowWord(BLOCK_SIZE * |blocks| + extra) && lengthHigh == HighWord(BLOCK_SIZE * |blocks| + extra)
    }

    /** The registers hold the hash of the blocks. */
    ghost predicate Hashed()
      reads this`A, this`B, this`C, this`D, this`blocks
    {
      Registers(A, B, C, D) == Chained(compress, start, blocks)
    }

    ghost predicate Genuine() {
      forall key {:trigger Look(key)} :: Look(key) ==> compress == Compress(g, c) && start == Initial(c)
    }

    ghost predicate Signed()
      reads this`A, this`B, this`C, this`D, this`signature
    {
      forall key {:trigger Look(key)} :: Look(key) ==> signature == Signature(c, Registers(A, B, C, D))
    }

    ghost function Held(): Stream
      reads this`blocks, this`storedSize, stored
      requires storedSize <= stored.Length
    {
      Stream(blocks, stored[..storedSize])
    }

    /** The object holds the message, its whole blocks processed and the rest stored. */
    ghost predicate Holds(message: seq<Byte>)
      reads this, stored
    {
      forall key {:trigger Look(key)} :: Look(key) ==> Valid() && !finished && IsWhole(Held(), message)
    }

    constructor (g: Steps<W>, c: Coding<W>)
      ensures Valid() && !finished && fresh(stored) && this.g == g && this.c == c
      ensures Held() == FRESH && Holds([])
    {
      this.g, this.c := g, c;
      A, B, C, D := c.word(0x67452301), c.word(0xefcdab89), c.word(0x98badcfe), c.word(0x10325476);
      lengthLow, lengthHigh := 0, 0;
      storedSize := 0;
      finished := false;
      stored := new Byte[2 * BLOCK_SIZE](_ => 0);
      blocks, extra := [], 0;
      compress := Compress(g, c);
      start := Initial(c);
    }

    /** The signature of a buffer taken whole. */
    constructor OfBuffer(g: Steps<W>, c: Coding<W>, input: seq<Byte>)
      requires |input| + BLOCK_SIZE < TWO_32
      ensures Valid() && finished && fresh(stored) && this.g == g && this.c == c
      ensures signature == Digest(g, c, input)
    {
      this.g, this.c := g, c;
      A, B, C, D := c.word(0x67452301), c.word(0xefcdab89), c.word(0x98badcfe), c.word(0x10325476);
      lengthLow, lengthHigh := 0, 0;
      storedSize := 0;
      finished := false;
      stored := new Byte[2 * BLOCK_SIZE](_ => 0);
      blocks, extra := [], 0;
      compress := Compress(g, c);
      start := Initial(c);
      new;
      ProcessNext(input, []);
      assert [] + input == input;
      FinishMessage(input);
      assert Look(0);
    }

    /** Finishes when the object holds a message; the signature is then that of the message. */
    method FinishMessage(ghost message: seq<Byte>)
      requires Holds(message)
      modifies this, stored
      ensures Valid() && finished
      ensures IsDigest(signature, g, c, message)
    {
      assert Look(0);
      ghost var st := Held();
      HeldIsShort(st, message);
      ghost var all := FinishRunning();
      MessageClosed(st, message, all);
      SignatureIsDigest(message);
    }

    lemma SignatureIsDigest(message: seq<Byte>)
      requires Valid() && finished && ArePadded(blocks, message)
      ensures IsDigest(signature, g, c, message)
    {
      assert Look(0);
    }

    method ProcessBlock(block: seq<Byte>)
      requires Running() && |block| == BLOCK_SIZE
      modifies this`A, this`B, this`C, this`D, this`lengthLow, this`lengthHigh, this`blocks
      ensures Running()
      ensures blocks == old(blocks) + [block]
    {
      CountBlock();
      HashBlock(block);
      blocks := blocks + [block];
    }

    method CountBlock()
      requires Counted()
      modifies this`lengthLow, this`lengthHigh
      ensures lengthLow == LowWord(BLOCK_SIZE * (|blocks| + 1) + extra)
      ensures lengthHigh == HighWord(BLOCK_SIZE * (|blocks| + 1) + extra)
    {
      CarryKeepsCount(BLOCK_SIZE * |blocks| + extra, BLOCK_SIZE);
      if (lengthLow + BLOCK_SIZE) % TWO_32 < lengthLow {
        lengthHigh := (lengthHigh + 1) % TWO_32;
      }
      lengthLow := (lengthLow + BLOCK_SIZE) % TWO_32;
    }

    method HashBlock(block: seq<Byte>)
      requires Hashed() && Genuine() && |block| == BLOCK_SIZE
      modifies this`A, this`B, this`C, this`D
      ensures Registers(A, B, C, D) == Chained(compress, start, blocks + [block])
    {
      OneMoreBlock(compress, start, blocks, block);
      var r := DigestBlock(g, c, Registers(A, B, C, D), block);
      assert Look(0);
      A, B, C, D := r.a, r.b, r.c, r.d;
    }

    /** Takes the next chunk of a message, if the call is safe. */
    method ProcessNext(input: seq<Byte>, ghost message: seq<Byte>)
      requires Holds(message) && SafeCall(|message| % BLOCK_SIZE, |input|)
      requires Fits(|message| % BLOCK_SIZE, |input|)
      modifies this, stored
      ensures Holds(message + input)
    {
      assert Look(0);
      NextIsSafe(message, input);
      Process(input);
    }

    /** Takes a chunk. For a longer one the loop would not end. */
    method Process(input: seq<Byte>)
      requires Valid()
      requires !finished ==> InBounds(storedSize, |input|) && Fits(storedSize, |input|)
      modifies this, stored
      ensures Valid()
      ensures finished == old(finished) && signature == old(signature)
      ensures Held() == if finished then old(Held()) else Literal(old(Held()), input)
    {
      if !finished {
        var processed := ProcessStored(input);
        TakeRest(input, processed, old(Held()));
      }
    }

    /** Goes on from byte number start of the input; st and the input are where the call began. */
    method TakeRest(input: seq<Byte>, start: nat, ghost st: Stream)
      requires Running() && start <= |input| && InBounds(|st.stored|, |input|)
      requires Continues(Held(), input[start..], st, input)
      requires HasRoom(storedSize, start, |input|) && Ends(start, |input|)
      modifies this`A, this`B, this`C, this`D, this`lengthLow, this`lengthHigh, this`blocks, this`storedSize, stored
      ensures Running() && Held() == Literal(st, input)
    {
      RoomForRest(storedSize, input, start);
      var processed := ProcessWhole(input, start);
      StoreRest(input, processed);
      assert Look(0);
    }

    /** Completes the stored block, if the guard allows it. */
    method ProcessStored(input: seq<Byte>) returns (processed: nat)
      requires Running() && InBounds(storedSize, |input|) && Fits(storedSize, |input|)
      modifies this`A, this`B, this`C, this`D, this`lengthLow, this`lengthHigh, this`blocks, this`storedSize
      ensures Running() && processed <= |input|
      ensures Held().stored == if processed == 0 then old(Held().stored) else []
      ensures Continues(Held(), input[processed..], old(Held()), input)
      ensures HasRoom(storedSize, processed, |input|) && Ends(processed, |input|)
    {
      processed := 0;
      var complete := Guard(storedSize, |input|);
      if complete {
        LiteralCompletes(Held(), input);
        var block := stored[..storedSize] + input[..BLOCK_SIZE - storedSize];
        processed := BLOCK_SIZE - storedSize;
        storedSize := 0;
        ProcessBlock(block);
      } else {
        LiteralStarts(Held(), input);
      }
    }

    /** Processes the whole blocks of the rest of the input. */
    method ProcessWhole(input: seq<Byte>, start: nat) returns (processed: nat)
      requires Running() && start <= |input| && Ends(start, |input|)
      modifies this`A, this`B, this`C, this`D, this`lengthLow, this`lengthHigh, this`blocks
      ensures Running() && start <= processed <= |input| < processed + BLOCK_SIZE
      ensures blocks == old(blocks) + Blocks(input[start..])
      ensures input[processed..] == Tail(input[start..])
    {
      processed := start;
      while (processed + BLOCK_SIZE) % TWO_32 <= |input|
        invariant Running() && start <= processed <= |input| && (processed - start) % BLOCK_SIZE == 0
        invariant blocks + Blocks(input[processed..]) == old(blocks) + Blocks(input[start..])
        invariant Tail(input[processed..]) == Tail(input[start..])
        decreases |input| - processed
      {
        StillBelow(start, processed, |input|);
        NextBlock(input, processed);
        ProcessBlock(input[processed..processed + BLOCK_SIZE]);
        processed := processed + BLOCK_SIZE;
      }
      StillBelow(start, processed, |input|);
      ShortIsTail(input[processed..]);
    }

    /** Stores what is left of the input behind what is stored, or empties the store when nothing is left. */
    method StoreRest(input: seq<Byte>, processed: nat)
      requires processed <= |input| && stored.Length == 2 * BLOCK_SIZE
      requires storedSize + (|input| - processed) <= stored.Length
      modifies this`storedSize, stored
      ensures storedSize <= stored.Length
      ensures stored[..storedSize]
           == if processed == |input| then [] else old(stored[..storedSize]) + input[processed..]
    {
      if processed != |input| {
        forall k | 0 <= k < |input| - processed {
          stored[storedSize + k] := input[processed + k];
        }
        storedSize := storedSize + (|input| - processed);
      } else {
        storedSize := 0;
      }
    }

    /** Pads, processes the last one or two blocks, and keeps the signature. The store must have room for it. */
    method Finish()
      requires Valid()
      requires !finished ==> storedSize <= 2 * BLOCK_SIZE - 8
      modifies this, stored
      ensures Valid() && finished
      ensures old(finished) ==> (signature == old(signature) && blocks == old(blocks))
      ensures !old(finished) ==> blocks == old(blocks) + Blocks(Closed(old(Held())))
    {
      if !finished {
        ghost var all := FinishRunning();
        assert Look(0);
      }
    }

    method FinishRunning() returns (ghost all: seq<Byte>)
      requires Running() && extra == 0 && storedSize <= 2 * BLOCK_SIZE - 8
      modifies this, stored
      ensures Valid() && finished
      ensures ClosesTo(old(Held()), all) && blocks == old(blocks) + Blocks(all)
    {
      all := HashRest();
      signature := Signature(c, Registers(A, B, C, D));
      finished := true;
    }

    method HashRest() returns (ghost all: seq<Byte>)
      requires Running() && extra == 0 && storedSize <= 2 * BLOCK_SIZE - 8
      modifies this`A, this`B, this`C, this`D, this`lengthLow, this`lengthHigh, this`blocks, this`extra,
          this`storedSize, stored
      ensures Running()
      ensures ClosesTo(old(Held()), all) && blocks == old(blocks) + Blocks(all)
    {
      CloseStored();
      all := stored[..storedSize];
      HashStored(stored[..storedSize]);
    }

    /** Brings the store to one or two whole blocks. */
    method CloseStored()
      requires Running() && extra == 0 && storedSize <= 2 * BLOCK_SIZE - 8
      modifies this`lengthLow, this`lengthHigh, this`extra, this`storedSize, stored
      ensures Running()
      ensures storedSize == BLOCK_SIZE || storedSize == 2 * BLOCK_SIZE
      ensures ClosesTo(old(Held()), stored[..storedSize])
    {
      CountStored();
      PadToBlocks();
    }

    method PadToBlocks()
      requires Sized() && Counted() && extra == storedSize <= 2 * BLOCK_SIZE - 8
      modifies this`storedSize, stored
      ensures storedSize == BLOCK_SIZE || storedSize == 2 * BLOCK_SIZE
      ensures ClosesTo(old(Held()), stored[..storedSize])
    {
      ghost var pad := PadStored();
      ghost var field := AppendLength();
      ClosedInParts(old(Held()), pad, field);
    }

    /** Counts the bytes still stored. */
    method CountStored()
      requires Counted() && extra == 0 && storedSize < TWO_32
      modifies this`lengthLow, this`lengthHigh, this`extra
      ensures Counted() && extra == storedSize
    {
      CarryKeepsCount(BLOCK_SIZE * |blocks|, storedSize);
      if (lengthLow + storedSize) % TWO_32 < lengthLow {
        lengthHigh := (lengthHigh + 1) % TWO_32;
      }
      lengthLow := (lengthLow + storedSize) % TWO_32;
      extra := storedSize;
    }

    method PadStored() returns (ghost padding: seq<Byte>)
      requires stored.Length == 2 * BLOCK_SIZE && storedSize <= 2 * BLOCK_SIZE - 8
      modifies this`storedSize, stored
      ensures storedSize == BLOCK_SIZE - 8 || storedSize == 2 * BLOCK_SIZE - 8
      ensures IsPad(padding, old(storedSize)) && stored[..storedSize] == old(stored[..storedSize]) + padding
    {
      padding := PadBytes(storedSize);
      var pad: int := BLOCK_SIZE - 8 - storedSize;
      if pad <= 0 {
        pad := pad + BLOCK_SIZE;
      }
      if pad > 0 {
        stored[storedSize] := 0x80;
        if pad > 1 {
          forall k | storedSize + 1 <= k < storedSize + pad {
            stored[k] := 0;
          }
        }
        storedSize := storedSize + pad;
      }
    }

    /** Appends the length of the message in bits, as two words. */
    method AppendLength() returns (ghost field: seq<Byte>)
      requires stored.Length == 2 * BLOCK_SIZE && storedSize <= 2 * BLOCK_SIZE - 8
      requires Counted()
      modifies this`storedSize, stored
      ensures storedSize == old(storedSize) + 8
      ensures IsLengthField(field, BLOCK_SIZE * |blocks| + extra)
          && stored[..storedSize] == old(stored[..storedSize]) + field
    {
      var low, high := LengthWords(lengthLow, lengthHigh, BLOCK_SIZE * |blocks| + extra);
      Append(low);
      Append(high);
      field := low + high;
    }

    method Append(bytes: seq<Byte>)
      requires storedSize + |bytes| <= stored.Length
      modifies this`storedSize, stored
      ensures storedSize == old(storedSize) + |bytes|
      ensures stored[..storedSize] == old(stored[..storedSize]) + bytes
    {
      forall k | 0 <= k < |bytes| {
        stored[storedSize + k] := bytes[k];
      }
      storedSize := storedSize + |bytes|;
    }

    method HashStored(all: seq<Byte>)
      requires Running() && (|all| == BLOCK_SIZE || |all| == 2 * BLOCK_SIZE)
      modifies this`A, this`B, this`C, this`D, this`lengthLow, this`lengthHigh, this`blocks
      ensures Running()
      ensures blocks == old(blocks) + Blocks(all)
    {
      OneOrTwoBlocks(all);
      ProcessBlock(all[..BLOCK_SIZE]);
      if |all| > BLOCK_SIZE {
        ProcessBlock(all[BLOCK_SIZE..]);
      }
    }
  }

  /** The two ways in which the guard lets a call begin. */
  lemma LiteralCompletes(st: Stream, input: seq<Byte>)
    requires InBounds(|st.stored|, |input|) && Completes(|st.stored|, |input|)
    ensures var k := BLOCK_SIZE - |st.stored|;
            0 <= k <= |input| && Continues(Stream(st.blocks + [st.stored + input[..k]], []), input[k..], st, input)
  {
  }

  lemma LiteralStarts(st: Stream, input: seq<Byte>)
    requires InBounds(|st.stored|, |input|) && !Completes(|st.stored|, |input|)
    ensures Continues(st, input[0..], st, input)
  {
    assert input[0..] == input;
  }

  /** The stored bytes and the next ones are a block, and the guard sees it. */
  predicate Completes(stored: nat, length: nat) {
    stored % 2 == 1 && length + stored >= BLOCK_SIZE
  }

  /** The store takes what is left of the input from byte number start on, but for whole blocks. */
  ghost predicate HasRoom(stored: nat, start: nat, length: nat) {
    forall key {:trigger Look(key)} :: Look(key) ==>
      start <= length && stored + (length - start) % BLOCK_SIZE <= 2 * BLOCK_SIZE
  }

  lemma RoomForRest(stored: nat, input: seq<Byte>, start: nat)
    requires HasRoom(stored, start, |input|) && start <= |input|
    ensures stored + |Tail(input[start..])| <= 2 * BLOCK_SIZE
  {
    assert Look(0);
    CutSizes(input[start..]);
  }

  lemma NextBlock(input: seq<Byte>, k: nat)
    requires k + BLOCK_SIZE <= |input|
    ensures Blocks(input[k..]) == [input[k..k + BLOCK_SIZE]] + Blocks(input[k + BLOCK_SIZE..])
    ensures Tail(input[k..]) == Tail(input[k + BLOCK_SIZE..])
  {
    assert input[k..][BLOCK_SIZE..] == input[k + BLOCK_SIZE..];
    assert input[k..][..BLOCK_SIZE] == input[k..k + BLOCK_SIZE];
  }

  /** The guard at the start of a call: stored_size & 1. */
  method Guard(stored: nat, length: nat) returns (complete: bool)
    requires InBounds(stored, length) && Fits(stored, length)
    ensures complete <==> Completes(stored, length)
    ensures complete ==>
              stored < BLOCK_SIZE && Ends(BLOCK_SIZE - stored, length) && HasRoom(0, BLOCK_SIZE - stored, length)
    ensures !complete ==> Ends(0, length) && HasRoom(stored, 0, length)
  {
    LastBlockEnds(CursorStart(stored, length), length, stored);
    complete := stored % 2 == 1 && (length + stored) % TWO_32 >= BLOCK_SIZE;
  }

  /** The cursor of the loop, in steps of whole blocks, has not wrapped. */
  lemma StillBelow(start: nat, processed: nat, length: nat)
    requires start <= processed <= length && (processed - start) % BLOCK_SIZE == 0 && Ends(start, length)
    ensures (processed + BLOCK_SIZE) % TWO_32 == processed + BLOCK_SIZE
    ensures (processed + BLOCK_SIZE - start) % BLOCK_SIZE == 0
  {
    assert Look(0);
    var a, q := (processed - start) / BLOCK_SIZE, (length - start) / BLOCK_SIZE;
    assert processed == start + BLOCK_SIZE * a && Beyond(start, length) == start + BLOCK_SIZE * q + BLOCK_SIZE;
    Remainder(processed + BLOCK_SIZE - start, BLOCK_SIZE, a + 1, 0);
  }

  lemma OneOrTwoBlocks(all: seq<Byte>)
    requires |all| == BLOCK_SIZE || |all| == 2 * BLOCK_SIZE
    ensures Blocks(all)
         == if |all| == BLOCK_SIZE then [all[..BLOCK_SIZE]] else [all[..BLOCK_SIZE]] + [all[BLOCK_SIZE..]]
  {
    var rest := all[BLOCK_SIZE..];
    assert Blocks(rest) == if |rest| == 0 then [] else [rest[..BLOCK_SIZE]] + Blocks(rest[BLOCK_SIZE..]);
    assert |rest| > 0 ==> rest[..BLOCK_SIZE] == rest;
  }

  /** The two words of the length in bits, each as the host stores it. */
  method LengthWords(lengthLow: nat, lengthHigh: nat, ghost n: nat) returns (low: seq<Byte>, high: seq<Byte>)
    requires lengthLow == LowWord(n) && lengthHigh == HighWord(n)
    ensures |low| == |high| == 4
    ensures IsLengthField(low + high, n)
  {
    var sizeLow := lengthLow % 0x2000_0000 * 8;
    var sizeHigh := lengthHigh * 8 % TWO_32 + lengthLow / 0x2000_0000;
    low := LittleEndian(sizeLow, 4);
    high := LittleEndian(sizeHigh, 4);
    LengthInBits(n);
    LengthField(8 * n);
  }

  /** From the state `now`, storing the rest in whole blocks and a tail completes the call on input that began in st. */
  ghost predicate Continues(now: Stream, rest: seq<Byte>, st: Stream, input: seq<Byte>)
    requires InBounds(|st.stored|, |input|)
  {
    forall key {:trigger Look(key)} :: Look(key) ==>
      Literal(st, input) == Stream(now.blocks + Blocks(rest), if Tail(rest) == [] then [] else now.stored + Tail(rest))
  }

  // ---------- A message in chunks ----------

  method ProcessAll<W(!new)>(md5: Context<W>, chunks: seq<seq<Byte>>)
    requires md5.Holds([]) && SafeRun(Sizes(chunks)) && RunFits(Sizes(chunks))
    modifies md5, md5.stored
    ensures md5.Holds(Concat(chunks))
  {
    for k := 0 to |chunks|
      invariant md5.Holds(Concat(chunks[..k]))
    {
      NextChunk(chunks, k);
      md5.ProcessNext(chunks[k], Concat(chunks[..k]));
    }
    assert chunks[..|chunks|] == chunks;
  }

  lemma NextChunk(chunks: seq<seq<Byte>>, k: nat)
    requires k < |chunks| && SafeRun(Sizes(chunks)) && RunFits(Sizes(chunks))
    ensures var stored := |Concat(chunks[..k])| % BLOCK_SIZE; SafeCall(stored, |chunks[k]|) && Fits(stored, |chunks[k]|)
    ensures Concat(chunks[..k]) + chunks[k] == Concat(chunks[..k + 1])
  {
    SafeRunAt(Sizes(chunks), k);
    assert Sizes(chunks)[..k] == Sizes(chunks[..k]);
    SumOfSizes(chunks[..k]);
    assert chunks[..k + 1][..k] == chunks[..k];
  }

  /** Whatever safe chunks a message arrives in, its signature is that of the message. */
  method SignatureOf<W(!new)>(g: Steps<W>, c: Coding<W>, chunks: seq<seq<Byte>>) returns (signature: seq<Byte>)
    requires SafeRun(Sizes(chunks)) && RunFits(Sizes(chunks))
    ensures signature == Digest(g, c, Concat(chunks))
  {
    var md5 := new Context(g, c);
    ProcessAll(md5, chunks);
    md5.FinishMessage(Concat(chunks));
    signature := md5.signature;
    assert Look(0);
  }

  // ---------- A file ----------

  /** FileName::md5sum, where each read returns the number of bytes given. */
  method Md5Sum<W(!new)>(g: Steps<W>, c: Coding<W>, content: seq<Byte>, blocSize: nat, sizes: seq<nat>)
    returns (signature: seq<Byte>)
    requires AreReads(|content|, blocSize, sizes) && SafeRun(sizes) && RunFits(sizes)
    ensures signature == Digest(g, c, content)
  {
    var md5 := new Context(g, c);
    ProcessFile(md5, content, blocSize, sizes);
    md5.FinishMessage(content);
    signature := md5.signature;
    assert Look(0);
  }

  /** The reads make up a file of n bytes, and the call after each is safe. */
  ghost predicate SafeReads(n: nat, blocSize: nat, sizes: seq<nat>) {
    forall key {:trigger Look(key)} :: Look(key) ==> AreReads(n, blocSize, sizes) && SafeRun(sizes) && RunFits(sizes)
  }

  /** A chunk of this size may follow that many bytes. */
  ghost predicate MayFollow(taken: nat, size: nat) {
    forall key {:trigger Look(key)} :: Look(key) ==>
      SafeCall(taken % BLOCK_SIZE, size) && Fits(taken % BLOCK_SIZE, size)
  }

  method ProcessFile<W(!new)>(md5: Context<W>, content: seq<Byte>, blocSize: nat, sizes: seq<nat>)
    requires SafeReads(|content|, blocSize, sizes) && md5.Holds([])
    modifies md5, md5.stored
    ensures md5.Holds(content)
  {
    var size, k := |content|, 0;
    while size > 0
      invariant 0 <= k <= |sizes| && 0 <= size == |content| - Sum(sizes[..k])
      invariant md5.Holds(content[..|content| - size])
    {
      size := ProcessRead(md5, content, blocSize, sizes, k, size);
      k := k + 1;
    }
    assert content[..|content|] == content;
  }

  /** Reads once and takes what was read; returns how much of the file is left. */
  method ProcessRead<W(!new)>(md5: Context<W>, content: seq<Byte>, blocSize: nat, sizes: seq<nat>, k: nat, size: nat)
    returns (left: nat)
    requires SafeReads(|content|, blocSize, sizes) && k <= |sizes| && 0 < size == |content| - Sum(sizes[..k])
    requires md5.Holds(content[..|content| - size])
    modifies md5, md5.stored
    ensures k < |sizes| && left < size && left == |content| - Sum(sizes[..k + 1])
    ensures md5.Holds(content[..|content| - left])
  {
    NextRead(|content|, blocSize, sizes, k);
    var toRead := if size < blocSize then size else blocSize;
    var chunk := Read(content, |content| - size, toRead, sizes[k]);
    ghost var done := content[..|content| - size];
    left := size - |chunk|;
    assert done + chunk == content[..|content| - left];
    MayTake(|done|, |chunk|);
    md5.ProcessNext(chunk, done);
  }

  lemma MayTake(taken: nat, size: nat)
    requires MayFollow(taken, size)
    ensures SafeCall(taken % BLOCK_SIZE, size) && Fits(taken % BLOCK_SIZE, size)
  {
    assert Look(0);
  }

  /** A read returns at most as many bytes as are asked for. */
  method Read(content: seq<Byte>, from: nat, toRead: nat, size: nat) returns (chunk: seq<Byte>)
    requires size <= toRead && from + toRead <= |content|
    ensures chunk == content[from..from + size]
  {
    chunk := content[from..from + size];
  }

  lemma NextRead(n: nat, blocSize: nat, sizes: seq<nat>, k: nat)
    requires SafeReads(n, blocSize, sizes) && k <= |sizes| && Sum(sizes[..k]) < n
    ensures k < |sizes| && 0 < sizes[k] <= blocSize && MayFollow(Sum(sizes[..k]), sizes[k])
    ensures Sum(sizes[..k]) + sizes[k] == Sum(sizes[..k + 1]) <= n
  {
    assert Look(0) && sizes[..|sizes|] == sizes;
    SafeRunAt(sizes, k);
    SumOfPrefix(sizes, k);
  }

  /**
   The same with the words of MD5 itself and full reads, for the block sizes of `FullReadsAreSafeIff`,
   one of which the library starts with.
   */
  method Md5OfFile(content: seq<Byte>, blocSize: nat := 1048576) returns (signature: seq<Byte>)
    requires 0 < blocSize && blocSize + BLOCK_SIZE < TWO_32
    requires blocSize % BLOCK_SIZE == 0 || blocSize == 1
    ensures signature == Digest(StepsOf(MD5), MD5_CODING, content)
  {
    FullReadsAreSafeIff(blocSize);
    FullReadsAre(|content|, blocSize);
    signature := Md5Sum(StepsOf(MD5), MD5_CODING, content, blocSize, FullReads(|content|, blocSize));
  }

  const MD5_CODING: Coding<bv32> := Coding(Plus, WordOf, ValueOf)

  /** The word of four bytes; there are no others. */
  function WordOf(n: nat): bv32 { if n < TWO_32 then n as bv32 else 0 }

  function ValueOf(x: bv32): nat { x as nat }
}
