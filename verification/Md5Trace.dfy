/**
 The steps of MD5 on two blocks of words, worked out one by one: those of the digits "1234567890" eight
 times over, padded. They use every entry of the table, every shift and every function, so that a slip in
 any of them would show.
 */
module Md5Trace {
  import opened Wrappers
  import opened Md5Block

  // ---------- Steps on 32-bit words ----------

  /** The new value of a, where f is what the round's function gives. */
  function Turned(a: bv32, b: bv32, f: bv32, w: bv32, t: bv32, shift: Shift): bv32 {
    Plus(CyclicLeftRotate(Plus(a, Plus(Plus(f, w), t)), shift), b)
  }

  lemma TurnIs(a: bv32, b: bv32, f: bv32, w: bv32, t: bv32, shift: Shift)
    ensures Turn(MD5, a, b, MD5.add(MD5.add(f, w), t), shift) == Turned(a, b, f, w, t, shift)
  {
    SumIs(f, w);
    SumIs(Plus(f, w), t);
    TurnOfSum(a, b, Plus(Plus(f, w), t), shift);
  }

  lemma TurnOfSum(a: bv32, b: bv32, k: bv32, shift: Shift)
    ensures Turn(MD5, a, b, k, shift) == Plus(CyclicLeftRotate(Plus(a, k), shift), b)
  {
  }

  lemma SumIs(x: bv32, y: bv32)
    ensures MD5.add(x, y) == Plus(x, y)
  {
  }

  /** The registers after i steps on the words x; Look(0) takes it apart. */
  ghost predicate After(x: seq<bv32>, start: Registers<bv32>, i: nat, s: Registers<bv32>) {
    |x| == 16 && forall key {:trigger Look(key)} :: Look(key) ==> s == Run(StepsOf(MD5), x, 0, i, start)
  }

  lemma NoStep(x: seq<bv32>, start: Registers<bv32>)
    requires |x| == 16
    ensures After(x, start, 0, start)
  {
  }

  lemma OneStep(x: seq<bv32>, start: Registers<bv32>, i: nat, s: Registers<bv32>, r: bv32)
    requires After(x, start, i, s) && r == Mix(StepsOf(MD5), i, s, x[WordIndex(i)])
    ensures After(x, start, i + 1, Registers(s.d, r, s.b, s.c))
  {
    assert Look(0);
    LastStep(StepsOf(MD5), x, i, start, s, r);
  }

  lemma LastStep<W>(g: Steps<W>, x: seq<W>, i: nat, start: Registers<W>, s: Registers<W>, r: W)
    requires |x| == 16 && s == Run(g, x, 0, i, start) && r == Mix(g, i, s, x[WordIndex(i)])
    ensures Run(g, x, 0, i + 1, start) == Registers(s.d, r, s.b, s.c)
  {
    RunAdds(g, x, 0, i, 1, start);
    assert Run(g, x, i, 1, s) == Run(g, x, i + 1, 0, Step(g, x, i, s));
  }

  /** A step of round one, worked out: k is the index of its word w, t its entry of the table, r the result. */
  lemma StepF(x: seq<bv32>, start: Registers<bv32>, i: nat, k: nat, shift: Shift, a: bv32, b: bv32, c: bv32, d: bv32,
              w: bv32, t: bv32, r: bv32)
    requires i < 16 && After(x, start, i, Registers(a, b, c, d)) && k == WordIndex(i) && shift == S1(i % 4)
    requires x[k] == w && T(i) == t && TurnsF(a, b, c, d, w, t, shift, r)
    ensures After(x, start, i + 1, Registers(d, r, b, c))
  {
    TurnIs(a, b, F(b, c, d), w, t, shift);
    MixF(MD5, i, Registers(a, b, c, d), w);
    OneStep(x, start, i, Registers(a, b, c, d), r);
  }

  predicate TurnsF(a: bv32, b: bv32, c: bv32, d: bv32, w: bv32, t: bv32, shift: Shift, r: bv32) {
    r == Turned(a, b, F(b, c, d), w, t, shift)
  }

  lemma MixF<W>(p: Words<W>, i: nat, s: Registers<W>, w: W)
    requires i < 16
    ensures Mix(StepsOf(p), i, s, w)
         == Turn(p, s.a, s.b, p.add(p.add(p.f(s.b, s.c, s.d), w), p.t(i)), S1(i % 4))
  {
  }

  /** A step of round two, worked out: k is the index of its word w, t its entry of the table, r the result. */
  lemma StepG(x: seq<bv32>, start: Registers<bv32>, i: nat, k: nat, shift: Shift, a: bv32, b: bv32, c: bv32, d: bv32,
              w: bv32, t: bv32, r: bv32)
    requires 16 <= i < 32 && After(x, start, i, Registers(a, b, c, d)) && k == WordIndex(i) && shift == S2(i % 4)
    requires x[k] == w && T(i) == t && TurnsG(a, b, c, d, w, t, shift, r)
    ensures After(x, start, i + 1, Registers(d, r, b, c))
  {
    TurnIs(a, b, G(b, c, d), w, t, shift);
    MixG(MD5, i, Registers(a, b, c, d), w);
    OneStep(x, start, i, Registers(a, b, c, d), r);
  }

  predicate TurnsG(a: bv32, b: bv32, c: bv32, d: bv32, w: bv32, t: bv32, shift: Shift, r: bv32) {
    r == Turned(a, b, G(b, c, d), w, t, shift)
  }

  lemma MixG<W>(p: Words<W>, i: nat, s: Registers<W>, w: W)
    requires 16 <= i < 32
    ensures Mix(StepsOf(p), i, s, w)
         == Turn(p, s.a, s.b, p.add(p.add(p.g(s.b, s.c, s.d), w), p.t(i)), S2(i % 4))
  {
  }

  /** A step of round three, worked out: k is the index of its word w, t its entry of the table, r the result. */
  lemma StepH(x: seq<bv32>, start: Registers<bv32>, i: nat, k: nat, shift: Shift, a: bv32, b: bv32, c: bv32, d: bv32,
              w: bv32, t: bv32, r: bv32)
    requires 32 <= i < 48 && After(x, start, i, Registers(a, b, c, d)) && k == WordIndex(i) && shift == S3(i % 4)
    requires x[k] == w && T(i) == t && TurnsH(a, b, c, d, w, t, shift, r)
    ensures After(x, start, i + 1, Registers(d, r, b, c))
  {
    TurnIs(a, b, H(b, c, d), w, t, shift);
    MixH(MD5, i, Registers(a, b, c, d), w);
    OneStep(x, start, i, Registers(a, b, c, d), r);
  }

  predicate TurnsH(a: bv32, b: bv32, c: bv32, d: bv32, w: bv32, t: bv32, shift: Shift, r: bv32) {
    r == Turned(a, b, H(b, c, d), w, t, shift)
  }

  lemma MixH<W>(p: Words<W>, i: nat, s: Registers<W>, w: W)
    requires 32 <= i < 48
    ensures Mix(StepsOf(p), i, s, w)
         == Turn(p, s.a, s.b, p.add(p.add(p.h(s.b, s.c, s.d), w), p.t(i)), S3(i % 4))
  {
  }

  /** A step of round four, worked out: k is the index of its word w, t its entry of the table, r the result. */
  lemma StepI(x: seq<bv32>, start: Registers<bv32>, i: nat, k: nat, shift: Shift, a: bv32, b: bv32, c: bv32, d: bv32,
              w: bv32, t: bv32, r: bv32)
    requires 48 <= i < 64 && After(x, start, i, Registers(a, b, c, d)) && k == WordIndex(i) && shift == S4(i % 4)
    requires x[k] == w && T(i) == t && TurnsI(a, b, c, d, w, t, shift, r)
    ensures After(x, start, i + 1, Registers(d, r, b, c))
  {
    TurnIs(a, b, I(b, c, d), w, t, shift);
    MixI(MD5, i, Registers(a, b, c, d), w);
    OneStep(x, start, i, Registers(a, b, c, d), r);
  }

  predicate TurnsI(a: bv32, b: bv32, c: bv32, d: bv32, w: bv32, t: bv32, shift: Shift, r: bv32) {
    r == Turned(a, b, I(b, c, d), w, t, shift)
  }

  lemma MixI<W>(p: Words<W>, i: nat, s: Registers<W>, w: W)
    requires 48 <= i < 64
    ensures Mix(StepsOf(p), i, s, w)
         == Turn(p, s.a, s.b, p.add(p.add(p.i(s.b, s.c, s.d), w), p.t(i)), S4(i % 4))
  {
  }

  // ---------- The two blocks ----------

  function First(): seq<bv32> {
    [0x34333231, 0x38373635, 0x32313039, 0x36353433, 0x30393837, 0x34333231, 0x38373635, 0x32313039]
    + [0x36353433, 0x30393837, 0x34333231, 0x38373635, 0x32313039, 0x36353433, 0x30393837, 0x34333231]
  }

  function Last(): seq<bv32> {
    [0x38373635, 0x32313039, 0x36353433, 0x30393837, 0x00000080, 0x00000000, 0x00000000, 0x00000000]
    + [0x00000000, 0x00000000, 0x00000000, 0x00000000, 0x00000000, 0x00000000, 0x00000280, 0x00000000]
  }

  lemma FirstBlockRuns(start: Registers<bv32>)
    requires start == Registers(0x67452301, 0xefcdab89, 0x98badcfe, 0x10325476)
    ensures After(First(), start, 64, Registers(0x614868eb, 0xb4d33102, 0x5133129b, 0xa09f38a7))
  {
    NoStep(First(), start);
    FirstFrom0(First(), start);
    FirstFrom4(First(), start);
    FirstFrom8(First(), start);
    FirstFrom12(First(), start);
    FirstFrom16(First(), start);
    FirstFrom20(First(), start);
    FirstFrom24(First(), start);
    FirstFrom28(First(), start);
    FirstFrom32(First(), start);
    FirstFrom36(First(), start);
    FirstFrom40(First(), start);
    FirstFrom44(First(), start);
    FirstFrom48(First(), start);
    FirstFrom52(First(), start);
    FirstFrom56(First(), start);
    FirstFrom60(First(), start);
  }

  lemma FirstFrom0(x: seq<bv32>, s: Registers<bv32>)
    requires x == First() && After(x, s, 0, Registers(0x67452301, 0xefcdab89, 0x98badcfe, 0x10325476))
    ensures After(x, s, 4, Registers(0xbeb8ff8e, 0x862797b0, 0xf8cdf95d, 0x7d989d89))
  {
    StepF(x, s, 0, 0, 7, 0x67452301, 0xefcdab89, 0x98badcfe, 0x10325476, 0x34333231, 0xd76aa478, 0xbeb8ff8e);
    StepF(x, s, 1, 1, 12, 0x10325476, 0xbeb8ff8e, 0xefcdab89, 0x98badcfe, 0x38373635, 0xe8c7b756, 0x7d989d89);
    StepF(x, s, 2, 2, 17, 0x98badcfe, 0x7d989d89, 0xbeb8ff8e, 0xefcdab89, 0x32313039, 0x242070db, 0xf8cdf95d);
    StepF(x, s, 3, 3, 22, 0xefcdab89, 0xf8cdf95d, 0x7d989d89, 0xbeb8ff8e, 0x36353433, 0xc1bdceee, 0x862797b0);
  }

  lemma FirstFrom4(x: seq<bv32>, s: Registers<bv32>)
    requires x == First() && After(x, s, 4, Registers(0xbeb8ff8e, 0x862797b0, 0xf8cdf95d, 0x7d989d89))
    ensures After(x, s, 8, Registers(0x8c17de9f, 0xc57e78c1, 0xe99fec1b, 0xc0f32d81))
  {
    StepF(x, s, 4, 4, 7, 0xbeb8ff8e, 0x862797b0, 0xf8cdf95d, 0x7d989d89, 0x30393837, 0xf57c0faf, 0x8c17de9f);
    StepF(x, s, 5, 5, 12, 0x7d989d89, 0x8c17de9f, 0x862797b0, 0xf8cdf95d, 0x34333231, 0x4787c62a, 0xc0f32d81);
    StepF(x, s, 6, 6, 17, 0xf8cdf95d, 0xc0f32d81, 0x8c17de9f, 0x862797b0, 0x38373635, 0xa8304613, 0xe99fec1b);
    StepF(x, s, 7, 7, 22, 0x862797b0, 0xe99fec1b, 0xc0f32d81, 0x8c17de9f, 0x32313039, 0xfd469501, 0xc57e78c1);
  }

  lemma FirstFrom8(x: seq<bv32>, s: Registers<bv32>)
    requires x == First() && After(x, s, 8, Registers(0x8c17de9f, 0xc57e78c1, 0xe99fec1b, 0xc0f32d81))
    ensures After(x, s, 12, Registers(0x7c0aceb7, 0xa5f36f8d, 0x5186a8ba, 0x8869d2d8))
  {
    StepF(x, s, 8, 8, 7, 0x8c17de9f, 0xc57e78c1, 0xe99fec1b, 0xc0f32d81, 0x36353433, 0x698098d8, 0x7c0aceb7);
    StepF(x, s, 9, 9, 12, 0xc0f32d81, 0x7c0aceb7, 0xc57e78c1, 0xe99fec1b, 0x30393837, 0x8b44f7af, 0x8869d2d8);
    StepF(x, s, 10, 10, 17, 0xe99fec1b, 0x8869d2d8, 0x7c0aceb7, 0xc57e78c1, 0x34333231, 0xffff5bb1, 0x5186a8ba);
    StepF(x, s, 11, 11, 22, 0xc57e78c1, 0x5186a8ba, 0x8869d2d8, 0x7c0aceb7, 0x38373635, 0x895cd7be, 0xa5f36f8d);
  }

  lemma FirstFrom12(x: seq<bv32>, s: Registers<bv32>)
    requires x == First() && After(x, s, 12, Registers(0x7c0aceb7, 0xa5f36f8d, 0x5186a8ba, 0x8869d2d8))
    ensures After(x, s, 16, Registers(0x5157e49e, 0xaf506a03, 0x27e983a0, 0xffac907e))
  {
    StepF(x, s, 12, 12, 7, 0x7c0aceb7, 0xa5f36f8d, 0x5186a8ba, 0x8869d2d8, 0x32313039, 0x6b901122, 0x5157e49e);
    StepF(x, s, 13, 13, 12, 0x8869d2d8, 0x5157e49e, 0xa5f36f8d, 0x5186a8ba, 0x36353433, 0xfd987193, 0xffac907e);
    StepF(x, s, 14, 14, 17, 0x5186a8ba, 0xffac907e, 0x5157e49e, 0xa5f36f8d, 0x30393837, 0xa679438e, 0x27e983a0);
    StepF(x, s, 15, 15, 22, 0xa5f36f8d, 0x27e983a0, 0xffac907e, 0x5157e49e, 0x34333231, 0x49b40821, 0xaf506a03);
  }

  lemma FirstFrom16(x: seq<bv32>, s: Registers<bv32>)
    requires x == First() && After(x, s, 16, Registers(0x5157e49e, 0xaf506a03, 0x27e983a0, 0xffac907e))
    ensures After(x, s, 20, Registers(0x8d18e0e8, 0x04280170, 0xef223167, 0x07de0df2))
  {
    StepG(x, s, 16, 1, 5, 0x5157e49e, 0xaf506a03, 0x27e983a0, 0xffac907e, 0x38373635, 0xf61e2562, 0x8d18e0e8);
    StepG(x, s, 17, 6, 9, 0xffac907e, 0x8d18e0e8, 0xaf506a03, 0x27e983a0, 0x38373635, 0xc040b340, 0x07de0df2);
    StepG(x, s, 18, 11, 14, 0x27e983a0, 0x07de0df2, 0x8d18e0e8, 0xaf506a03, 0x38373635, 0x265e5a51, 0xef223167);
    StepG(x, s, 19, 0, 20, 0xaf506a03, 0xef223167, 0x07de0df2, 0x8d18e0e8, 0x34333231, 0xe9b6c7aa, 0x04280170);
  }

  lemma FirstFrom20(x: seq<bv32>, s: Registers<bv32>)
    requires x == First() && After(x, s, 20, Registers(0x8d18e0e8, 0x04280170, 0xef223167, 0x07de0df2))
    ensures After(x, s, 24, Registers(0x78929ee0, 0xad400a91, 0xb18aca50, 0x375c6c2c))
  {
    StepG(x, s, 20, 5, 5, 0x8d18e0e8, 0x04280170, 0xef223167, 0x07de0df2, 0x34333231, 0xd62f105d, 0x78929ee0);
    StepG(x, s, 21, 10, 9, 0x07de0df2, 0x78929ee0, 0x04280170, 0xef223167, 0x34333231, 0x02441453, 0x375c6c2c);
    StepG(x, s, 22, 15, 14, 0xef223167, 0x375c6c2c, 0x78929ee0, 0x04280170, 0x34333231, 0xd8a1e681, 0xb18aca50);
    StepG(x, s, 23, 4, 20, 0x04280170, 0xb18aca50, 0x375c6c2c, 0x78929ee0, 0x30393837, 0xe7d3fbc8, 0xad400a91);
  }

  lemma FirstFrom24(x: seq<bv32>, s: Registers<bv32>)
    requires x == First() && After(x, s, 24, Registers(0x78929ee0, 0xad400a91, 0xb18aca50, 0x375c6c2c))
    ensures After(x, s, 28, Registers(0xbb45f43f, 0xb70e35a9, 0x98ade6b5, 0xd61f8a0f))
  {
    StepG(x, s, 24, 9, 5, 0x78929ee0, 0xad400a91, 0xb18aca50, 0x375c6c2c, 0x30393837, 0x21e1cde6, 0xbb45f43f);
    StepG(x, s, 25, 14, 9, 0x375c6c2c, 0xbb45f43f, 0xad400a91, 0xb18aca50, 0x30393837, 0xc33707d6, 0xd61f8a0f);
    StepG(x, s, 26, 3, 14, 0xb18aca50, 0xd61f8a0f, 0xbb45f43f, 0xad400a91, 0x36353433, 0xf4d50d87, 0x98ade6b5);
    StepG(x, s, 27, 8, 20, 0xad400a91, 0x98ade6b5, 0xd61f8a0f, 0xbb45f43f, 0x36353433, 0x455a14ed, 0xb70e35a9);
  }

  lemma FirstFrom28(x: seq<bv32>, s: Registers<bv32>)
    requires x == First() && After(x, s, 28, Registers(0xbb45f43f, 0xb70e35a9, 0x98ade6b5, 0xd61f8a0f))
    ensures After(x, s, 32, Registers(0xf8bcfbb0, 0x1bf25662, 0x99a0f1b8, 0xd760ed39))
  {
    StepG(x, s, 28, 13, 5, 0xbb45f43f, 0xb70e35a9, 0x98ade6b5, 0xd61f8a0f, 0x36353433, 0xa9e3e905, 0xf8bcfbb0);
    StepG(x, s, 29, 2, 9, 0xd61f8a0f, 0xf8bcfbb0, 0xb70e35a9, 0x98ade6b5, 0x32313039, 0xfcefa3f8, 0xd760ed39);
    StepG(x, s, 30, 7, 14, 0x98ade6b5, 0xd760ed39, 0xf8bcfbb0, 0xb70e35a9, 0x32313039, 0x676f02d9, 0x99a0f1b8);
    StepG(x, s, 31, 12, 20, 0xb70e35a9, 0x99a0f1b8, 0xd760ed39, 0xf8bcfbb0, 0x32313039, 0x8d2a4c8a, 0x1bf25662);
  }

  lemma FirstFrom32(x: seq<bv32>, s: Registers<bv32>)
    requires x == First() && After(x, s, 32, Registers(0xf8bcfbb0, 0x1bf25662, 0x99a0f1b8, 0xd760ed39))
    ensures After(x, s, 36, Registers(0x3dbd76ca, 0xe0162f49, 0xc7ed7c30, 0xfd056171))
  {
    StepH(x, s, 32, 5, 4, 0xf8bcfbb0, 0x1bf25662, 0x99a0f1b8, 0xd760ed39, 0x34333231, 0xfffa3942, 0x3dbd76ca);
    StepH(x, s, 33, 8, 11, 0xd760ed39, 0x3dbd76ca, 0x1bf25662, 0x99a0f1b8, 0x36353433, 0x8771f681, 0xfd056171);
    StepH(x, s, 34, 11, 16, 0x99a0f1b8, 0xfd056171, 0x3dbd76ca, 0x1bf25662, 0x38373635, 0x6d9d6122, 0xc7ed7c30);
    StepH(x, s, 35, 14, 23, 0x1bf25662, 0xc7ed7c30, 0xfd056171, 0x3dbd76ca, 0x30393837, 0xfde5380c, 0xe0162f49);
  }

  lemma FirstFrom36(x: seq<bv32>, s: Registers<bv32>)
    requires x == First() && After(x, s, 36, Registers(0x3dbd76ca, 0xe0162f49, 0xc7ed7c30, 0xfd056171))
    ensures After(x, s, 40, Registers(0x3b32c408, 0x1d4d6f72, 0x9ef871ad, 0x7338d8b7))
  {
    StepH(x, s, 36, 1, 4, 0x3dbd76ca, 0xe0162f49, 0xc7ed7c30, 0xfd056171, 0x38373635, 0xa4beea44, 0x3b32c408);
    StepH(x, s, 37, 4, 11, 0xfd056171, 0x3b32c408, 0xe0162f49, 0xc7ed7c30, 0x30393837, 0x4bdecfa9, 0x7338d8b7);
    StepH(x, s, 38, 7, 16, 0xc7ed7c30, 0x7338d8b7, 0x3b32c408, 0xe0162f49, 0x32313039, 0xf6bb4b60, 0x9ef871ad);
    StepH(x, s, 39, 10, 23, 0xe0162f49, 0x9ef871ad, 0x7338d8b7, 0x3b32c408, 0x34333231, 0xbebfbc70, 0x1d4d6f72);
  }

  lemma FirstFrom40(x: seq<bv32>, s: Registers<bv32>)
    requires x == First() && After(x, s, 40, Registers(0x3b32c408, 0x1d4d6f72, 0x9ef871ad, 0x7338d8b7))
    ensures After(x, s, 44, Registers(0xc661460a, 0x89e3c4d7, 0xd6d5b879, 0xd2bf04c9))
  {
    StepH(x, s, 40, 13, 4, 0x3b32c408, 0x1d4d6f72, 0x9ef871ad, 0x7338d8b7, 0x36353433, 0x289b7ec6, 0xc661460a);
    StepH(x, s, 41, 0, 11, 0x7338d8b7, 0xc661460a, 0x1d4d6f72, 0x9ef871ad, 0x34333231, 0xeaa127fa, 0xd2bf04c9);
    StepH(x, s, 42, 3, 16, 0x9ef871ad, 0xd2bf04c9, 0xc661460a, 0x1d4d6f72, 0x36353433, 0xd4ef3085, 0xd6d5b879);
    StepH(x, s, 43, 6, 23, 0x1d4d6f72, 0xd6d5b879, 0xd2bf04c9, 0xc661460a, 0x38373635, 0x04881d05, 0x89e3c4d7);
  }

  lemma FirstFrom44(x: seq<bv32>, s: Registers<bv32>)
    requires x == First() && After(x, s, 44, Registers(0xc661460a, 0x89e3c4d7, 0xd6d5b879, 0xd2bf04c9))
    ensures After(x, s, 48, Registers(0x697032ec, 0xdb4197da, 0xefc2c171, 0xfa597bfc))
  {
    StepH(x, s, 44, 9, 4, 0xc661460a, 0x89e3c4d7, 0xd6d5b879, 0xd2bf04c9, 0x30393837, 0xd9d4d039, 0x697032ec);
    StepH(x, s, 45, 12, 11, 0xd2bf04c9, 0x697032ec, 0x89e3c4d7, 0xd6d5b879, 0x32313039, 0xe6db99e5, 0xfa597bfc);
    StepH(x, s, 46, 15, 16, 0xd6d5b879, 0xfa597bfc, 0x697032ec, 0x89e3c4d7, 0x34333231, 0x1fa27cf8, 0xefc2c171);
    StepH(x, s, 47, 2, 23, 0x89e3c4d7, 0xefc2c171, 0xfa597bfc, 0x697032ec, 0x32313039, 0xc4ac5665, 0xdb4197da);
  }

  lemma FirstFrom48(x: seq<bv32>, s: Registers<bv32>)
    requires x == First() && After(x, s, 48, Registers(0x697032ec, 0xdb4197da, 0xefc2c171, 0xfa597bfc))
    ensures After(x, s, 52, Registers(0x57b91aca, 0xcaa25b01, 0x21efbd88, 0x210c9ebc))
  {
    StepI(x, s, 48, 0, 6, 0x697032ec, 0xdb4197da, 0xefc2c171, 0xfa597bfc, 0x34333231, 0xf4292244, 0x57b91aca);
    StepI(x, s, 49, 7, 10, 0xfa597bfc, 0x57b91aca, 0xdb4197da, 0xefc2c171, 0x32313039, 0x432aff97, 0x210c9ebc);
    StepI(x, s, 50, 14, 15, 0xefc2c171, 0x210c9ebc, 0x57b91aca, 0xdb4197da, 0x30393837, 0xab9423a7, 0x21efbd88);
    StepI(x, s, 51, 5, 21, 0xdb4197da, 0x21efbd88, 0x210c9ebc, 0x57b91aca, 0x34333231, 0xfc93a039, 0xcaa25b01);
  }

  lemma FirstFrom52(x: seq<bv32>, s: Registers<bv32>)
    requires x == First() && After(x, s, 52, Registers(0x57b91aca, 0xcaa25b01, 0x21efbd88, 0x210c9ebc))
    ensures After(x, s, 56, Registers(0x633d3f7c, 0x7713f5df, 0xccaa1524, 0x1a4d3beb))
  {
    StepI(x, s, 52, 12, 6, 0x57b91aca, 0xcaa25b01, 0x21efbd88, 0x210c9ebc, 0x32313039, 0x655b59c3, 0x633d3f7c);
    StepI(x, s, 53, 3, 10, 0x210c9ebc, 0x633d3f7c, 0xcaa25b01, 0x21efbd88, 0x36353433, 0x8f0ccc92, 0x1a4d3beb);
    StepI(x, s, 54, 10, 15, 0x21efbd88, 0x1a4d3beb, 0x633d3f7c, 0xcaa25b01, 0x34333231, 0xffeff47d, 0xccaa1524);
    StepI(x, s, 55, 1, 21, 0xcaa25b01, 0xccaa1524, 0x1a4d3beb, 0x633d3f7c, 0x38373635, 0x85845dd1, 0x7713f5df);
  }

  lemma FirstFrom56(x: seq<bv32>, s: Registers<bv32>)
    requires x == First() && After(x, s, 56, Registers(0x633d3f7c, 0x7713f5df, 0xccaa1524, 0x1a4d3beb))
    ensures After(x, s, 60, Registers(0x8448b430, 0x660a801d, 0x7e294727, 0x71c93463))
  {
    StepI(x, s, 56, 8, 6, 0x633d3f7c, 0x7713f5df, 0xccaa1524, 0x1a4d3beb, 0x36353433, 0x6fa87e4f, 0x8448b430);
    StepI(x, s, 57, 15, 10, 0x1a4d3beb, 0x8448b430, 0x7713f5df, 0xccaa1524, 0x34333231, 0xfe2ce6e0, 0x71c93463);
    StepI(x, s, 58, 6, 15, 0xccaa1524, 0x71c93463, 0x8448b430, 0x7713f5df, 0x38373635, 0xa3014314, 0x7e294727);
    StepI(x, s, 59, 13, 21, 0x7713f5df, 0x7e294727, 0x71c93463, 0x8448b430, 0x36353433, 0x4e0811a1, 0x660a801d);
  }

  lemma FirstFrom60(x: seq<bv32>, s: Registers<bv32>)
    requires x == First() && After(x, s, 60, Registers(0x8448b430, 0x660a801d, 0x7e294727, 0x71c93463))
    ensures After(x, s, 64, Registers(0x614868eb, 0xb4d33102, 0x5133129b, 0xa09f38a7))
  {
    StepI(x, s, 60, 4, 6, 0x8448b430, 0x660a801d, 0x7e294727, 0x71c93463, 0x30393837, 0xf7537e82, 0x614868eb);
    StepI(x, s, 61, 11, 10, 0x71c93463, 0x614868eb, 0x660a801d, 0x7e294727, 0x38373635, 0xbd3af235, 0xa09f38a7);
    StepI(x, s, 62, 2, 15, 0x7e294727, 0xa09f38a7, 0x614868eb, 0x660a801d, 0x32313039, 0x2ad7d2bb, 0x5133129b);
    StepI(x, s, 63, 9, 21, 0x660a801d, 0x5133129b, 0xa09f38a7, 0x614868eb, 0x30393837, 0xeb86d391, 0xb4d33102);
  }

  lemma LastBlockRuns(start: Registers<bv32>)
    requires start == Registers(0xc88d8bec, 0xa4a0dc8b, 0xe9edef99, 0xb0d18d1d)
    ensures After(Last(), start, 64, Registers(0xda67616b, 0xb12906a0, 0x44ec5a13, 0xc9e47a04))
  {
    NoStep(Last(), start);
    LastFrom0(Last(), start);
    LastFrom4(Last(), start);
    LastFrom8(Last(), start);
    LastFrom12(Last(), start);
    LastFrom16(Last(), start);
    LastFrom20(Last(), start);
    LastFrom24(Last(), start);
    LastFrom28(Last(), start);
    LastFrom32(Last(), start);
    LastFrom36(Last(), start);
    LastFrom40(Last(), start);
    LastFrom44(Last(), start);
    LastFrom48(Last(), start);
    LastFrom52(Last(), start);
    LastFrom56(Last(), start);
    LastFrom60(Last(), start);
  }

  lemma LastFrom0(x: seq<bv32>, s: Registers<bv32>)
    requires x == Last() && After(x, s, 0, Registers(0xc88d8bec, 0xa4a0dc8b, 0xe9edef99, 0xb0d18d1d))
    ensures After(x, s, 4, Registers(0x353af7cf, 0x45e88f2c, 0x63356537, 0x3a4f735a))
  {
    StepF(x, s, 0, 0, 7, 0xc88d8bec, 0xa4a0dc8b, 0xe9edef99, 0xb0d18d1d, 0x38373635, 0xd76aa478, 0x353af7cf);
    StepF(x, s, 1, 1, 12, 0xb0d18d1d, 0x353af7cf, 0xa4a0dc8b, 0xe9edef99, 0x32313039, 0xe8c7b756, 0x3a4f735a);
    StepF(x, s, 2, 2, 17, 0xe9edef99, 0x3a4f735a, 0x353af7cf, 0xa4a0dc8b, 0x36353433, 0x242070db, 0x63356537);
    StepF(x, s, 3, 3, 22, 0xa4a0dc8b, 0x63356537, 0x3a4f735a, 0x353af7cf, 0x30393837, 0xc1bdceee, 0x45e88f2c);
  }

  lemma LastFrom4(x: seq<bv32>, s: Registers<bv32>)
    requires x == Last() && After(x, s, 4, Registers(0x353af7cf, 0x45e88f2c, 0x63356537, 0x3a4f735a))
    ensures After(x, s, 8, Registers(0x3527497e, 0x377c7d0a, 0x948347ae, 0xab92660e))
  {
    StepF(x, s, 4, 4, 7, 0x353af7cf, 0x45e88f2c, 0x63356537, 0x3a4f735a, 0x00000080, 0xf57c0faf, 0x3527497e);
    StepF(x, s, 5, 5, 12, 0x3a4f735a, 0x3527497e, 0x45e88f2c, 0x63356537, 0x00000000, 0x4787c62a, 0xab92660e);
    StepF(x, s, 6, 6, 17, 0x63356537, 0xab92660e, 0x3527497e, 0x45e88f2c, 0x00000000, 0xa8304613, 0x948347ae);
    StepF(x, s, 7, 7, 22, 0x45e88f2c, 0x948347ae, 0xab92660e, 0x3527497e, 0x00000000, 0xfd469501, 0x377c7d0a);
  }

  lemma LastFrom8(x: seq<bv32>, s: Registers<bv32>)
    requires x == Last() && After(x, s, 8, Registers(0x3527497e, 0x377c7d0a, 0x948347ae, 0xab92660e))
    ensures After(x, s, 12, Registers(0xcc912f27, 0xb9ede40c, 0xae23894d, 0x6945a3d5))
  {
    StepF(x, s, 8, 8, 7, 0x3527497e, 0x377c7d0a, 0x948347ae, 0xab92660e, 0x00000000, 0x698098d8, 0xcc912f27);
    StepF(x, s, 9, 9, 12, 0xab92660e, 0xcc912f27, 0x377c7d0a, 0x948347ae, 0x00000000, 0x8b44f7af, 0x6945a3d5);
    StepF(x, s, 10, 10, 17, 0x948347ae, 0x6945a3d5, 0xcc912f27, 0x377c7d0a, 0x00000000, 0xffff5bb1, 0xae23894d);
    StepF(x, s, 11, 11, 22, 0x377c7d0a, 0xae23894d, 0x6945a3d5, 0xcc912f27, 0x00000000, 0x895cd7be, 0xb9ede40c);
  }

  lemma LastFrom12(x: seq<bv32>, s: Registers<bv32>)
    requires x == Last() && After(x, s, 12, Registers(0xcc912f27, 0xb9ede40c, 0xae23894d, 0x6945a3d5))
    ensures After(x, s, 16, Registers(0xdb4ff71c, 0x58b12eab, 0x04396a39, 0x9b6b4960))
  {
    StepF(x, s, 12, 12, 7, 0xcc912f27, 0xb9ede40c, 0xae23894d, 0x6945a3d5, 0x00000000, 0x6b901122, 0xdb4ff71c);
    StepF(x, s, 13, 13, 12, 0x6945a3d5, 0xdb4ff71c, 0xb9ede40c, 0xae23894d, 0x00000000, 0xfd987193, 0x9b6b4960);
    StepF(x, s, 14, 14, 17, 0xae23894d, 0x9b6b4960, 0xdb4ff71c, 0xb9ede40c, 0x00000280, 0xa679438e, 0x04396a39);
    StepF(x, s, 15, 15, 22, 0xb9ede40c, 0x04396a39, 0x9b6b4960, 0xdb4ff71c, 0x00000000, 0x49b40821, 0x58b12eab);
  }

  lemma LastFrom16(x: seq<bv32>, s: Registers<bv32>)
    requires x == Last() && After(x, s, 16, Registers(0xdb4ff71c, 0x58b12eab, 0x04396a39, 0x9b6b4960))
    ensures After(x, s, 20, Registers(0x52c00cae, 0x50f8de8c, 0xa476af6f, 0xaad2a216))
  {
    StepG(x, s, 16, 1, 5, 0xdb4ff71c, 0x58b12eab, 0x04396a39, 0x9b6b4960, 0x32313039, 0xf61e2562, 0x52c00cae);
    StepG(x, s, 17, 6, 9, 0x9b6b4960, 0x52c00cae, 0x58b12eab, 0x04396a39, 0x00000000, 0xc040b340, 0xaad2a216);
    StepG(x, s, 18, 11, 14, 0x04396a39, 0xaad2a216, 0x52c00cae, 0x58b12eab, 0x00000000, 0x265e5a51, 0xa476af6f);
    StepG(x, s, 19, 0, 20, 0x58b12eab, 0xa476af6f, 0xaad2a216, 0x52c00cae, 0x38373635, 0xe9b6c7aa, 0x50f8de8c);
  }

  lemma LastFrom20(x: seq<bv32>, s: Registers<bv32>)
    requires x == Last() && After(x, s, 20, Registers(0x52c00cae, 0x50f8de8c, 0xa476af6f, 0xaad2a216))
    ensures After(x, s, 24, Registers(0x0d6e6d91, 0x043cb080, 0xd5b7a850, 0x17d64195))
  {
    StepG(x, s, 20, 5, 5, 0x52c00cae, 0x50f8de8c, 0xa476af6f, 0xaad2a216, 0x00000000, 0xd62f105d, 0x0d6e6d91);
    StepG(x, s, 21, 10, 9, 0xaad2a216, 0x0d6e6d91, 0x50f8de8c, 0xa476af6f, 0x00000000, 0x02441453, 0x17d64195);
    StepG(x, s, 22, 15, 14, 0xa476af6f, 0x17d64195, 0x0d6e6d91, 0x50f8de8c, 0x00000000, 0xd8a1e681, 0xd5b7a850);
    StepG(x, s, 23, 4, 20, 0x50f8de8c, 0xd5b7a850, 0x17d64195, 0x0d6e6d91, 0x00000080, 0xe7d3fbc8, 0x043cb080);
  }

  lemma LastFrom24(x: seq<bv32>, s: Registers<bv32>)
    requires x == Last() && After(x, s, 24, Registers(0x0d6e6d91, 0x043cb080, 0xd5b7a850, 0x17d64195))
    ensures After(x, s, 28, Registers(0x74f9377e, 0xcb00b96e, 0xe775c8ca, 0x01f2addd))
  {
    StepG(x, s, 24, 9, 5, 0x0d6e6d91, 0x043cb080, 0xd5b7a850, 0x17d64195, 0x00000000, 0x21e1cde6, 0x74f9377e);
    StepG(x, s, 25, 14, 9, 0x17d64195, 0x74f9377e, 0x043cb080, 0xd5b7a850, 0x00000280, 0xc33707d6, 0x01f2addd);
    StepG(x, s, 26, 3, 14, 0xd5b7a850, 0x01f2addd, 0x74f9377e, 0x043cb080, 0x30393837, 0xf4d50d87, 0xe775c8ca);
    StepG(x, s, 27, 8, 20, 0x043cb080, 0xe775c8ca, 0x01f2addd, 0x74f9377e, 0x00000000, 0x455a14ed, 0xcb00b96e);
  }

  lemma LastFrom28(x: seq<bv32>, s: Registers<bv32>)
    requires x == Last() && After(x, s, 28, Registers(0x74f9377e, 0xcb00b96e, 0xe775c8ca, 0x01f2addd))
    ensures After(x, s, 32, Registers(0x8761f38e, 0x67092c33, 0x061bc867, 0x7a516116))
  {
    StepG(x, s, 28, 13, 5, 0x74f9377e, 0xcb00b96e, 0xe775c8ca, 0x01f2addd, 0x00000000, 0xa9e3e905, 0x8761f38e);
    StepG(x, s, 29, 2, 9, 0x01f2addd, 0x8761f38e, 0xcb00b96e, 0xe775c8ca, 0x36353433, 0xfcefa3f8, 0x7a516116);
    StepG(x, s, 30, 7, 14, 0xe775c8ca, 0x7a516116, 0x8761f38e, 0xcb00b96e, 0x00000000, 0x676f02d9, 0x061bc867);
    StepG(x, s, 31, 12, 20, 0xcb00b96e, 0x061bc867, 0x7a516116, 0x8761f38e, 0x00000000, 0x8d2a4c8a, 0x67092c33);
  }

  lemma LastFrom32(x: seq<bv32>, s: Registers<bv32>)
    requires x == Last() && After(x, s, 32, Registers(0x8761f38e, 0x67092c33, 0x061bc867, 0x7a516116))
    ensures After(x, s, 36, Registers(0x91044d5d, 0x2ee1e3fe, 0xc0175fa8, 0x610954eb))
  {
    StepH(x, s, 32, 5, 4, 0x8761f38e, 0x67092c33, 0x061bc867, 0x7a516116, 0x00000000, 0xfffa3942, 0x91044d5d);
    StepH(x, s, 33, 8, 11, 0x7a516116, 0x91044d5d, 0x67092c33, 0x061bc867, 0x00000000, 0x8771f681, 0x610954eb);
    StepH(x, s, 34, 11, 16, 0x061bc867, 0x610954eb, 0x91044d5d, 0x67092c33, 0x00000000, 0x6d9d6122, 0xc0175fa8);
    StepH(x, s, 35, 14, 23, 0x67092c33, 0xc0175fa8, 0x610954eb, 0x91044d5d, 0x00000280, 0xfde5380c, 0x2ee1e3fe);
  }

  lemma LastFrom36(x: seq<bv32>, s: Registers<bv32>)
    requires x == Last() && After(x, s, 36, Registers(0x91044d5d, 0x2ee1e3fe, 0xc0175fa8, 0x610954eb))
    ensures After(x, s, 40, Registers(0xae26ed7d, 0xdbd1bff6, 0xff4a94dc, 0x71d8ecea))
  {
    StepH(x, s, 36, 1, 4, 0x91044d5d, 0x2ee1e3fe, 0xc0175fa8, 0x610954eb, 0x32313039, 0xa4beea44, 0xae26ed7d);
    StepH(x, s, 37, 4, 11, 0x610954eb, 0xae26ed7d, 0x2ee1e3fe, 0xc0175fa8, 0x00000080, 0x4bdecfa9, 0x71d8ecea);
    StepH(x, s, 38, 7, 16, 0xc0175fa8, 0x71d8ecea, 0xae26ed7d, 0x2ee1e3fe, 0x00000000, 0xf6bb4b60, 0xff4a94dc);
    StepH(x, s, 39, 10, 23, 0x2ee1e3fe, 0xff4a94dc, 0x71d8ecea, 0xae26ed7d, 0x00000000, 0xbebfbc70, 0xdbd1bff6);
  }

  lemma LastFrom40(x: seq<bv32>, s: Registers<bv32>)
    requires x == Last() && After(x, s, 40, Registers(0xae26ed7d, 0xdbd1bff6, 0xff4a94dc, 0x71d8ecea))
    ensures After(x, s, 44, Registers(0x9c350028, 0x56b3692f, 0xfacaaf06, 0x97e5da92))
  {
    StepH(x, s, 40, 13, 4, 0xae26ed7d, 0xdbd1bff6, 0xff4a94dc, 0x71d8ecea, 0x00000000, 0x289b7ec6, 0x9c350028);
    StepH(x, s, 41, 0, 11, 0x71d8ecea, 0x9c350028, 0xdbd1bff6, 0xff4a94dc, 0x38373635, 0xeaa127fa, 0x97e5da92);
    StepH(x, s, 42, 3, 16, 0xff4a94dc, 0x97e5da92, 0x9c350028, 0xdbd1bff6, 0x30393837, 0xd4ef3085, 0xfacaaf06);
    StepH(x, s, 43, 6, 23, 0xdbd1bff6, 0xfacaaf06, 0x97e5da92, 0x9c350028, 0x00000000, 0x04881d05, 0x56b3692f);
  }

  lemma LastFrom44(x: seq<bv32>, s: Registers<bv32>)
    requires x == Last() && After(x, s, 44, Registers(0x9c350028, 0x56b3692f, 0xfacaaf06, 0x97e5da92))
    ensures After(x, s, 48, Registers(0x71123afa, 0x1df7010a, 0xe6a8a386, 0xdc9c8ddb))
  {
    StepH(x, s, 44, 9, 4, 0x9c350028, 0x56b3692f, 0xfacaaf06, 0x97e5da92, 0x00000000, 0xd9d4d039, 0x71123afa);
    StepH(x, s, 45, 12, 11, 0x97e5da92, 0x71123afa, 0x56b3692f, 0xfacaaf06, 0x00000000, 0xe6db99e5, 0xdc9c8ddb);
    StepH(x, s, 46, 15, 16, 0xfacaaf06, 0xdc9c8ddb, 0x71123afa, 0x56b3692f, 0x00000000, 0x1fa27cf8, 0xe6a8a386);
    StepH(x, s, 47, 2, 23, 0x56b3692f, 0xe6a8a386, 0xdc9c8ddb, 0x71123afa, 0x36353433, 0xc4ac5665, 0x1df7010a);
  }

  lemma LastFrom48(x: seq<bv32>, s: Registers<bv32>)
    requires x == Last() && After(x, s, 48, Registers(0x71123afa, 0x1df7010a, 0xe6a8a386, 0xdc9c8ddb))
    ensures After(x, s, 52, Registers(0xd29007e7, 0xc8797828, 0xd3248109, 0x7241a77e))
  {
    StepI(x, s, 48, 0, 6, 0x71123afa, 0x1df7010a, 0xe6a8a386, 0xdc9c8ddb, 0x38373635, 0xf4292244, 0xd29007e7);
    StepI(x, s, 49, 7, 10, 0xdc9c8ddb, 0xd29007e7, 0x1df7010a, 0xe6a8a386, 0x00000000, 0x432aff97, 0x7241a77e);
    StepI(x, s, 50, 14, 15, 0xe6a8a386, 0x7241a77e, 0xd29007e7, 0x1df7010a, 0x00000280, 0xab9423a7, 0xd3248109);
    StepI(x, s, 51, 5, 21, 0x1df7010a, 0xd3248109, 0x7241a77e, 0xd29007e7, 0x00000000, 0xfc93a039, 0xc8797828);
  }

  lemma LastFrom52(x: seq<bv32>, s: Registers<bv32>)
    requires x == Last() && After(x, s, 52, Registers(0xd29007e7, 0xc8797828, 0xd3248109, 0x7241a77e))
    ensures After(x, s, 56, Registers(0x7a504abd, 0x9b31b114, 0xa290d6ce, 0x211cc65d))
  {
    StepI(x, s, 52, 12, 6, 0xd29007e7, 0xc8797828, 0xd3248109, 0x7241a77e, 0x00000000, 0x655b59c3, 0x7a504abd);
    StepI(x, s, 53, 3, 10, 0x7241a77e, 0x7a504abd, 0xc8797828, 0xd3248109, 0x30393837, 0x8f0ccc92, 0x211cc65d);
    StepI(x, s, 54, 10, 15, 0xd3248109, 0x211cc65d, 0x7a504abd, 0xc8797828, 0x00000000, 0xffeff47d, 0xa290d6ce);
    StepI(x, s, 55, 1, 21, 0xc8797828, 0xa290d6ce, 0x211cc65d, 0x7a504abd, 0x32313039, 0x85845dd1, 0x9b31b114);
  }

  lemma LastFrom56(x: seq<bv32>, s: Registers<bv32>)
    requires x == Last() && After(x, s, 56, Registers(0x7a504abd, 0x9b31b114, 0xa290d6ce, 0x211cc65d))
    ensures After(x, s, 60, Registers(0x723fd22d, 0x4dc4f33d, 0x3d79cf74, 0xd21d6a3b))
  {
    StepI(x, s, 56, 8, 6, 0x7a504abd, 0x9b31b114, 0xa290d6ce, 0x211cc65d, 0x00000000, 0x6fa87e4f, 0x723fd22d);
    StepI(x, s, 57, 15, 10, 0x211cc65d, 0x723fd22d, 0x9b31b114, 0xa290d6ce, 0x00000000, 0xfe2ce6e0, 0xd21d6a3b);
    StepI(x, s, 58, 6, 15, 0xa290d6ce, 0xd21d6a3b, 0x723fd22d, 0x9b31b114, 0x00000000, 0xa3014314, 0x3d79cf74);
    StepI(x, s, 59, 13, 21, 0x9b31b114, 0x3d79cf74, 0xd21d6a3b, 0x723fd22d, 0x00000000, 0x4e0811a1, 0x4dc4f33d);
  }

  lemma LastFrom60(x: seq<bv32>, s: Registers<bv32>)
    requires x == Last() && After(x, s, 60, Registers(0x723fd22d, 0x4dc4f33d, 0x3d79cf74, 0xd21d6a3b))
    ensures After(x, s, 64, Registers(0xda67616b, 0xb12906a0, 0x44ec5a13, 0xc9e47a04))
  {
    StepI(x, s, 60, 4, 6, 0x723fd22d, 0x4dc4f33d, 0x3d79cf74, 0xd21d6a3b, 0x00000080, 0xf7537e82, 0xda67616b);
    StepI(x, s, 61, 11, 10, 0xd21d6a3b, 0xda67616b, 0x4dc4f33d, 0x3d79cf74, 0x00000000, 0xbd3af235, 0xc9e47a04);
    StepI(x, s, 62, 2, 15, 0x3d79cf74, 0xc9e47a04, 0xda67616b, 0x4dc4f33d, 0x36353433, 0x2ad7d2bb, 0x44ec5a13);
    StepI(x, s, 63, 9, 21, 0x4dc4f33d, 0x44ec5a13, 0xc9e47a04, 0xda67616b, 0x00000000, 0xeb86d391, 0xb12906a0);
  }
}
