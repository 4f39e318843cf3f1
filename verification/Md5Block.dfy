/**
 One block of MD5: the 64 unrolled steps of `process_block`, whose register arguments rotate from
 call to call, are the loop of section 3.4 of RFC 1321, and for every block that loop permutes the
 four registers.

 The program is stated over any type of word and any four step functions. The steps are then built
 from any arithmetic of words, and `MD5` is that of include/yat/md5/md5_loc.h.
 */
module Md5Block {

  datatype Registers<W> = Registers(a: W, b: W, c: W, d: W)

  /** The step functions of the four rounds: the new value of a, from a, b, c, d, a word, the shift's index and i. */
  datatype Steps<!W> = Steps(
    ff: (W, W, W, W, W, nat, nat) -> W,
    gg: (W, W, W, W, W, nat, nat) -> W,
    hh: (W, W, W, W, W, nat, nat) -> W,
    ii: (W, W, W, W, W, nat, nat) -> W)

  // ---------- The loop of RFC 1321 ----------

  /** The word that step i takes. */
  function WordIndex(i: nat): (k: nat)
    ensures k < 16
  {
    if i < 16 then i else if i < 32 then (5 * i + 1) % 16 else if i < 48 then (3 * i + 5) % 16 else 7 * i % 16
  }

  function Mix<W>(g: Steps<W>, i: nat, s: Registers<W>, w: W): W {
    if i < 16 then g.ff(s.a, s.b, s.c, s.d, w, i % 4, i)
    else if i < 32 then g.gg(s.a, s.b, s.c, s.d, w, i % 4, i)
    else if i < 48 then g.hh(s.a, s.b, s.c, s.d, w, i % 4, i)
    else g.ii(s.a, s.b, s.c, s.d, w, i % 4, i)
  }

  /** One step: a is replaced, and the registers move round by one place. */
  function Step<W>(g: Steps<W>, x: seq<W>, i: nat, s: Registers<W>): Registers<W>
    requires |x| == 16
  {
    Registers(s.d, Mix(g, i, s, x[WordIndex(i)]), s.b, s.c)
  }

  /** n steps from number i on. */
  function Run<W>(g: Steps<W>, x: seq<W>, i: nat, n: nat, s: Registers<W>): Registers<W>
    requires |x| == 16
    decreases n
  {
    if n == 0 then s else Run(g, x, i + 1, n - 1, Step(g, x, i, s))
  }

  lemma {:induction false} RunAdds<W>(g: Steps<W>, x: seq<W>, i: nat, m: nat, n: nat, s: Registers<W>)
    requires |x| == 16
    ensures Run(g, x, i, m + n, s) == Run(g, x, i + m, n, Run(g, x, i, m, s))
    decreases m
  {
    if m > 0 {
      RunAdds(g, x, i + 1, m - 1, n, Step(g, x, i, s));
    }
  }

  // ---------- The unrolled program ----------

  method RoundOne<W>(g: Steps<W>, x: seq<W>, s: Registers<W>) returns (r: Registers<W>)
    requires |x| == 16
    ensures r == Run(g, x, 0, |x|, s)
  {
    var A, B, C, D := s.a, s.b, s.c, s.d;
    ghost var s0 := Registers(A, B, C, D);
    A := g.ff(A, B, C, D, x[0], 0, 0);
    D := g.ff(D, A, B, C, x[1], 1, 1);
    C := g.ff(C, D, A, B, x[2], 2, 2);
    B := g.ff(B, C, D, A, x[3], 3, 3);
    FourSteps(g, x, 0, s0, A, B, C, D);
    ghost var s1 := Registers(A, B, C, D);
    A := g.ff(A, B, C, D, x[4], 0, 4);
    D := g.ff(D, A, B, C, x[5], 1, 5);
    C := g.ff(C, D, A, B, x[6], 2, 6);
    B := g.ff(B, C, D, A, x[7], 3, 7);
    FourSteps(g, x, 4, s1, A, B, C, D);
    ghost var s2 := Registers(A, B, C, D);
    A := g.ff(A, B, C, D, x[8], 0, 8);
    D := g.ff(D, A, B, C, x[9], 1, 9);
    C := g.ff(C, D, A, B, x[10], 2, 10);
    B := g.ff(B, C, D, A, x[11], 3, 11);
    FourSteps(g, x, 8, s2, A, B, C, D);
    ghost var s3 := Registers(A, B, C, D);
    A := g.ff(A, B, C, D, x[12], 0, 12);
    D := g.ff(D, A, B, C, x[13], 1, 13);
    C := g.ff(C, D, A, B, x[14], 2, 14);
    B := g.ff(B, C, D, A, x[15], 3, 15);
    FourSteps(g, x, 12, s3, A, B, C, D);
    r := Registers(A, B, C, D);
    RunAdds(g, x, 0, 4, 12, s);
    RunAdds(g, x, 4, 4, 8, s1);
    RunAdds(g, x, 8, 4, 4, s2);
  }

  method RoundTwo<W>(g: Steps<W>, x: seq<W>, s: Registers<W>) returns (r: Registers<W>)
    requires |x| == 16
    ensures r == Run(g, x, 16, |x|, s)
  {
    var A, B, C, D := s.a, s.b, s.c, s.d;
    ghost var s0 := Registers(A, B, C, D);
    A := g.gg(A, B, C, D, x[1], 0, 16);
    D := g.gg(D, A, B, C, x[6], 1, 17);
    C := g.gg(C, D, A, B, x[11], 2, 18);
    B := g.gg(B, C, D, A, x[0], 3, 19);
    FourSteps(g, x, 16, s0, A, B, C, D);
    ghost var s1 := Registers(A, B, C, D);
    A := g.gg(A, B, C, D, x[5], 0, 20);
    D := g.gg(D, A, B, C, x[10], 1, 21);
    C := g.gg(C, D, A, B, x[15], 2, 22);
    B := g.gg(B, C, D, A, x[4], 3, 23);
    FourSteps(g, x, 20, s1, A, B, C, D);
    ghost var s2 := Registers(A, B, C, D);
    A := g.gg(A, B, C, D, x[9], 0, 24);
    D := g.gg(D, A, B, C, x[14], 1, 25);
    C := g.gg(C, D, A, B, x[3], 2, 26);
    B := g.gg(B, C, D, A, x[8], 3, 27);
    FourSteps(g, x, 24, s2, A, B, C, D);
    ghost var s3 := Registers(A, B, C, D);
    A := g.gg(A, B, C, D, x[13], 0, 28);
    D := g.gg(D, A, B, C, x[2], 1, 29);
    C := g.gg(C, D, A, B, x[7], 2, 30);
    B := g.gg(B, C, D, A, x[12], 3, 31);
    FourSteps(g, x, 28, s3, A, B, C, D);
    r := Registers(A, B, C, D);
    RunAdds(g, x, 16, 4, 12, s);
    RunAdds(g, x, 20, 4, 8, s1);
    RunAdds(g, x, 24, 4, 4, s2);
  }

  method RoundThree<W>(g: Steps<W>, x: seq<W>, s: Registers<W>) returns (r: Registers<W>)
    requires |x| == 16
    ensures r == Run(g, x, 32, |x|, s)
  {
    var A, B, C, D := s.a, s.b, s.c, s.d;
    ghost var s0 := Registers(A, B, C, D);
    A := g.hh(A, B, C, D, x[5], 0, 32);
    D := g.hh(D, A, B, C, x[8], 1, 33);
    C := g.hh(C, D, A, B, x[11], 2, 34);
    B := g.hh(B, C, D, A, x[14], 3, 35);
    FourSteps(g, x, 32, s0, A, B, C, D);
    ghost var s1 := Registers(A, B, C, D);
    A := g.hh(A, B, C, D, x[1], 0, 36);
    D := g.hh(D, A, B, C, x[4], 1, 37);
    C := g.hh(C, D, A, B, x[7], 2, 38);
    B := g.hh(B, C, D, A, x[10], 3, 39);
    FourSteps(g, x, 36, s1, A, B, C, D);
    ghost var s2 := Registers(A, B, C, D);
    A := g.hh(A, B, C, D, x[13], 0, 40);
    D := g.hh(D, A, B, C, x[0], 1, 41);
    C := g.hh(C, D, A, B, x[3], 2, 42);
    B := g.hh(B, C, D, A, x[6], 3, 43);
    FourSteps(g, x, 40, s2, A, B, C, D);
    ghost var s3 := Registers(A, B, C, D);
    A := g.hh(A, B, C, D, x[9], 0, 44);
    D := g.hh(D, A, B, C, x[12], 1, 45);
    C := g.hh(C, D, A, B, x[15], 2, 46);
    B := g.hh(B, C, D, A, x[2], 3, 47);
    FourSteps(g, x, 44, s3, A, B, C, D);
    r := Registers(A, B, C, D);
    RunAdds(g, x, 32, 4, 12, s);
    RunAdds(g, x, 36, 4, 8, s1);
    RunAdds(g, x, 40, 4, 4, s2);
  }

  method RoundFour<W>(g: Steps<W>, x: seq<W>, s: Registers<W>) returns (r: Registers<W>)
    requires |x| == 16
    ensures r == Run(g, x, 48, |x|, s)
  {
    var A, B, C, D := s.a, s.b, s.c, s.d;
    ghost var s0 := Registers(A, B, C, D);
    A := g.ii(A, B, C, D, x[0], 0, 48);
    D := g.ii(D, A, B, C, x[7], 1, 49);
    C := g.ii(C, D, A, B, x[14], 2, 50);
    B := g.ii(B, C, D, A, x[5], 3, 51);
    FourSteps(g, x, 48, s0, A, B, C, D);
    ghost var s1 := Registers(A, B, C, D);
    A := g.ii(A, B, C, D, x[12], 0, 52);
    D := g.ii(D, A, B, C, x[3], 1, 53);
    C := g.ii(C, D, A, B, x[10], 2, 54);
    B := g.ii(B, C, D, A, x[1], 3, 55);
    FourSteps(g, x, 52, s1, A, B, C, D);
    ghost var s2 := Registers(A, B, C, D);
    A := g.ii(A, B, C, D, x[8], 0, 56);
    D := g.ii(D, A, B, C, x[15], 1, 57);
    C := g.ii(C, D, A, B, x[6], 2, 58);
    B := g.ii(B, C, D, A, x[13], 3, 59);
    FourSteps(g, x, 56, s2, A, B, C, D);
    ghost var s3 := Registers(A, B, C, D);
    A := g.ii(A, B, C, D, x[4], 0, 60);
    D := g.ii(D, A, B, C, x[11], 1, 61);
    C := g.ii(C, D, A, B, x[2], 2, 62);
    B := g.ii(B, C, D, A, x[9], 3, 63);
    FourSteps(g, x, 60, s3, A, B, C, D);
    r := Registers(A, B, C, D);
    RunAdds(g, x, 48, 4, 12, s);
    RunAdds(g, x, 52, 4, 8, s1);
    RunAdds(g, x, 56, 4, 4, s2);
  }

  /** Four unrolled steps bring the registers back to their places. */
  lemma FourSteps<W>(g: Steps<W>, x: seq<W>, i: nat, s: Registers<W>, A: W, B: W, C: W, D: W)
    requires |x| == 16 && i % 4 == 0
    requires A == Mix(g, i, s, x[WordIndex(i)])
    requires D == Mix(g, i + 1, Registers(s.d, A, s.b, s.c), x[WordIndex(i + 1)])
    requires C == Mix(g, i + 2, Registers(s.c, D, A, s.b), x[WordIndex(i + 2)])
    requires B == Mix(g, i + 3, Registers(s.b, C, D, A), x[WordIndex(i + 3)])
    ensures Run(g, x, i, 4, s) == Registers(A, B, C, D)
  {
    var s1 := Step(g, x, i, s);
    var s2 := Step(g, x, i + 1, s1);
    var s3 := Step(g, x, i + 2, s2);
    var s4 := Step(g, x, i + 3, s3);
    assert Run(g, x, i, 4, s) == Run(g, x, i + 1, 3, s1) == Run(g, x, i + 2, 2, s2) == Run(g, x, i + 3, 1, s3) == s4;
  }

  /** All 64 steps, before the final additions; each round takes every word once. */
  method AllRounds<W>(g: Steps<W>, x: seq<W>, s: Registers<W>) returns (r: Registers<W>)
    requires |x| == 16
    ensures r == Run(g, x, 0, 4 * |x|, s)
  {
    r := RoundOne(g, x, s);
    ghost var s1 := r;
    r := RoundTwo(g, x, r);
    ghost var s2 := r;
    r := RoundThree(g, x, r);
    ghost var s3 := r;
    r := RoundFour(g, x, r);
    FourRounds(g, x, |x|, s, s1, s2, s3, r);
  }

  lemma FourRounds<W>(g: Steps<W>, x: seq<W>, n: nat, s: Registers<W>, s1: Registers<W>, s2: Registers<W>,
      s3: Registers<W>, s4: Registers<W>)
    requires |x| == 16
    requires s1 == Run(g, x, 0, n, s) && s2 == Run(g, x, n, n, s1)
    requires s3 == Run(g, x, n + n, n, s2) && s4 == Run(g, x, n + n + n, n, s3)
    ensures s4 == Run(g, x, 0, n + n + n + n, s)
  {
    RunsJoin(g, x, 0, n, n, s, s1, s2);
    RunsJoin(g, x, 0, n + n, n, s, s2, s3);
    RunsJoin(g, x, 0, n + n + n, n, s, s3, s4);
  }

  lemma RunsJoin<W>(g: Steps<W>, x: seq<W>, i: nat, m: nat, n: nat, s: Registers<W>, t: Registers<W>, u: Registers<W>)
    requires |x| == 16
    requires t == Run(g, x, i, m, s) && u == Run(g, x, i + m, n, t)
    ensures u == Run(g, x, i, m + n, s)
  {
    RunAdds(g, x, i, m, n, s);
  }

  /** What the program needs besides its steps: the sum of two words, the word of a number, the number of a word. */
  datatype Coding<!W> = Coding(add: (W, W) -> W, word: nat -> W, value: W -> nat)

  /** Each register increased by its value before the block. */
  function AddEach<W>(c: Coding<W>, s: Registers<W>, t: Registers<W>): Registers<W> {
    Registers(c.add(s.a, t.a), c.add(s.b, t.b), c.add(s.c, t.c), c.add(s.d, t.d))
  }

  /** A whole block, as the RFC has it. */
  function Block<W>(g: Steps<W>, c: Coding<W>, x: seq<W>, s: Registers<W>): Registers<W>
    requires |x| == 16
  {
    AddEach(c, Run(g, x, 0, 4 * |x|, s), s)
  }

  method ProcessWords<W>(g: Steps<W>, c: Coding<W>, x: seq<W>, s: Registers<W>) returns (r: Registers<W>)
    requires |x| == 16
    ensures r == Block(g, c, x, s)
  {
    r := AllRounds(g, x, s);
    r := AddEach(c, r, s);
  }

  // ---------- Each block permutes the registers ----------

  function StepBack<W>(u: Steps<W>, x: seq<W>, i: nat, s: Registers<W>): Registers<W>
    requires |x| == 16
  {
    Registers(Mix(u, i, Registers(s.b, s.c, s.d, s.a), x[WordIndex(i)]), s.c, s.d, s.a)
  }

  /** The same steps in the opposite order. */
  function RunBack<W>(u: Steps<W>, x: seq<W>, i: nat, n: nat, s: Registers<W>): Registers<W>
    requires |x| == 16
    decreases n
  {
    if n == 0 then s else StepBack(u, x, i, RunBack(u, x, i + 1, n - 1, s))
  }

  ghost predicate StepsUndone<W(!new)>(g: Steps<W>, u: Steps<W>, x: seq<W>)
    requires |x| == 16
  {
    && (forall i, s :: StepBack(u, x, i, Step(g, x, i, s)) == s)
    && (forall i, s :: Step(g, x, i, StepBack(u, x, i, s)) == s)
  }

  /** Running back undoes a run, and the other way round: the map is one-to-one and onto. */
  lemma {:induction false} RunsAreInverse<W(!new)>(g: Steps<W>, u: Steps<W>, x: seq<W>, i: nat, n: nat, s: Registers<W>)
    requires |x| == 16 && StepsUndone(g, u, x)
    ensures RunBack(u, x, i, n, Run(g, x, i, n, s)) == s
    ensures Run(g, x, i, n, RunBack(u, x, i, n, s)) == s
    decreases n
  {
    if n > 0 {
      RunsAreInverse(g, u, x, i + 1, n - 1, Step(g, x, i, s));
      RunsAreInverse(g, u, x, i + 1, n - 1, s);
    }
  }

  /** Undoing functions recover the old value of a from the new one. */
  ghost predicate Undoes<W(!new)>(g: (W, W, W, W, W, nat, nat) -> W, u: (W, W, W, W, W, nat, nat) -> W) {
    forall a, b, c, d, x, s, i :: u(g(a, b, c, d, x, s, i), b, c, d, x, s, i) == a
  }

  ghost predicate Inverse<W(!new)>(g: Steps<W>, u: Steps<W>) {
    Undoes(g.ff, u.ff) && Undoes(g.gg, u.gg) && Undoes(g.hh, u.hh) && Undoes(g.ii, u.ii)
  }

  lemma InverseSteps<W(!new)>(g: Steps<W>, u: Steps<W>, x: seq<W>)
    requires |x| == 16 && Inverse(g, u) && Inverse(u, g)
    ensures StepsUndone(g, u, x)
  {
    forall i, s
      ensures StepBack(u, x, i, Step(g, x, i, s)) == s
    {
      MixBack(g, u, i, s, x[WordIndex(i)]);
    }
    forall i, s
      ensures Step(g, x, i, StepBack(u, x, i, s)) == s
    {
      MixBack(u, g, i, Registers(s.b, s.c, s.d, s.a), x[WordIndex(i)]);
    }
  }

  lemma MixBack<W(!new)>(g: Steps<W>, u: Steps<W>, i: nat, s: Registers<W>, w: W)
    requires Inverse(g, u)
    ensures Mix(u, i, Registers(Mix(g, i, s, w), s.b, s.c, s.d), w) == s.a
  {
  }

  // ---------- Steps from an arithmetic of words ----------

  type Shift = s: nat | 0 < s < 32 witness 1

  datatype Words<!W> = Words(
    add: (W, W) -> W,
    sub: (W, W) -> W,
    left: (W, Shift) -> W,      // cyclic rotations
    right: (W, Shift) -> W,
    f: (W, W, W) -> W,
    g: (W, W, W) -> W,
    h: (W, W, W) -> W,
    i: (W, W, W) -> W,
    t: nat -> W)                // the table of sines

  function S1(s: nat): Shift { if s == 0 then 7 else if s == 1 then 12 else if s == 2 then 17 else 22 }

  function S2(s: nat): Shift { if s == 0 then 5 else if s == 1 then 9 else if s == 2 then 14 else 20 }

  function S3(s: nat): Shift { if s == 0 then 4 else if s == 1 then 11 else if s == 2 then 16 else 23 }

  function S4(s: nat): Shift { if s == 0 then 6 else if s == 1 then 10 else if s == 2 then 15 else 21 }

  /** What all four step functions do: k is the sum of the round's function, the word and the table's entry. */
  function Turn<W>(p: Words<W>, a: W, b: W, k: W, shift: Shift): W {
    p.add(p.left(p.add(a, k), shift), b)
  }

  function TurnBack<W>(p: Words<W>, a: W, b: W, k: W, shift: Shift): W {
    p.sub(p.right(p.sub(a, b), shift), k)
  }

  function FF<W>(p: Words<W>): (W, W, W, W, W, nat, nat) -> W {
    (a: W, b: W, c: W, d: W, x: W, s: nat, i: nat) => Turn(p, a, b, p.add(p.add(p.f(b, c, d), x), p.t(i)), S1(s))
  }

  function UndoFF<W>(p: Words<W>): (W, W, W, W, W, nat, nat) -> W {
    (a: W, b: W, c: W, d: W, x: W, s: nat, i: nat) => TurnBack(p, a, b, p.add(p.add(p.f(b, c, d), x), p.t(i)), S1(s))
  }

  function GG<W>(p: Words<W>): (W, W, W, W, W, nat, nat) -> W {
    (a: W, b: W, c: W, d: W, x: W, s: nat, i: nat) => Turn(p, a, b, p.add(p.add(p.g(b, c, d), x), p.t(i)), S2(s))
  }

  function UndoGG<W>(p: Words<W>): (W, W, W, W, W, nat, nat) -> W {
    (a: W, b: W, c: W, d: W, x: W, s: nat, i: nat) => TurnBack(p, a, b, p.add(p.add(p.g(b, c, d), x), p.t(i)), S2(s))
  }

  function HH<W>(p: Words<W>): (W, W, W, W, W, nat, nat) -> W {
    (a: W, b: W, c: W, d: W, x: W, s: nat, i: nat) => Turn(p, a, b, p.add(p.add(p.h(b, c, d), x), p.t(i)), S3(s))
  }

  function UndoHH<W>(p: Words<W>): (W, W, W, W, W, nat, nat) -> W {
    (a: W, b: W, c: W, d: W, x: W, s: nat, i: nat) => TurnBack(p, a, b, p.add(p.add(p.h(b, c, d), x), p.t(i)), S3(s))
  }

  function II<W>(p: Words<W>): (W, W, W, W, W, nat, nat) -> W {
    (a: W, b: W, c: W, d: W, x: W, s: nat, i: nat) => Turn(p, a, b, p.add(p.add(p.i(b, c, d), x), p.t(i)), S4(s))
  }

  function UndoII<W>(p: Words<W>): (W, W, W, W, W, nat, nat) -> W {
    (a: W, b: W, c: W, d: W, x: W, s: nat, i: nat) => TurnBack(p, a, b, p.add(p.add(p.i(b, c, d), x), p.t(i)), S4(s))
  }

  function StepsOf<W>(p: Words<W>): Steps<W> {
    Steps(FF(p), GG(p), HH(p), II(p))
  }

  function UndoOf<W>(p: Words<W>): Steps<W> {
    Steps(UndoFF(p), UndoGG(p), UndoHH(p), UndoII(p))
  }

  ghost predicate Laws<W(!new)>(p: Words<W>) {
    AddLaw(p) && SubLaw(p) && LeftLaw(p) && RightLaw(p)
  }

  ghost predicate AddLaw<W(!new)>(p: Words<W>) {
    forall x, k :: p.sub(p.add(x, k), k) == x
  }

  ghost predicate SubLaw<W(!new)>(p: Words<W>) {
    forall x, k :: p.add(p.sub(x, k), k) == x
  }

  ghost predicate LeftLaw<W(!new)>(p: Words<W>) {
    forall x, s :: p.right(p.left(x, s), s) == x
  }

  ghost predicate RightLaw<W(!new)>(p: Words<W>) {
    forall x, s :: p.left(p.right(x, s), s) == x
  }

  lemma TurnsAreInverse<W(!new)>(p: Words<W>, a: W, b: W, k: W, s: Shift)
    requires Laws(p)
    ensures TurnBack(p, Turn(p, a, b, k, s), b, k, s) == a
    ensures Turn(p, TurnBack(p, a, b, k, s), b, k, s) == a
  {
  }

  lemma RoundOneUndone<W(!new)>(p: Words<W>)
    requires Laws(p)
    ensures Undoes(FF(p), UndoFF(p)) && Undoes(UndoFF(p), FF(p))
  {
    forall a, b, c, d, x, s, i
      ensures UndoFF(p)(FF(p)(a, b, c, d, x, s, i), b, c, d, x, s, i) == a
      ensures FF(p)(UndoFF(p)(a, b, c, d, x, s, i), b, c, d, x, s, i) == a
    {
      TurnsAreInverse(p, a, b, p.add(p.add(p.f(b, c, d), x), p.t(i)), S1(s));
    }
  }

  lemma RoundTwoUndone<W(!new)>(p: Words<W>)
    requires Laws(p)
    ensures Undoes(GG(p), UndoGG(p)) && Undoes(UndoGG(p), GG(p))
  {
    forall a, b, c, d, x, s, i
      ensures UndoGG(p)(GG(p)(a, b, c, d, x, s, i), b, c, d, x, s, i) == a
      ensures GG(p)(UndoGG(p)(a, b, c, d, x, s, i), b, c, d, x, s, i) == a
    {
      TurnsAreInverse(p, a, b, p.add(p.add(p.g(b, c, d), x), p.t(i)), S2(s));
    }
  }

  lemma RoundThreeUndone<W(!new)>(p: Words<W>)
    requires Laws(p)
    ensures Undoes(HH(p), UndoHH(p)) && Undoes(UndoHH(p), HH(p))
  {
    forall a, b, c, d, x, s, i
      ensures UndoHH(p)(HH(p)(a, b, c, d, x, s, i), b, c, d, x, s, i) == a
      ensures HH(p)(UndoHH(p)(a, b, c, d, x, s, i), b, c, d, x, s, i) == a
    {
      TurnsAreInverse(p, a, b, p.add(p.add(p.h(b, c, d), x), p.t(i)), S3(s));
    }
  }

  lemma RoundFourUndone<W(!new)>(p: Words<W>)
    requires Laws(p)
    ensures Undoes(II(p), UndoII(p)) && Undoes(UndoII(p), II(p))
  {
    forall a, b, c, d, x, s, i
      ensures UndoII(p)(II(p)(a, b, c, d, x, s, i), b, c, d, x, s, i) == a
      ensures II(p)(UndoII(p)(a, b, c, d, x, s, i), b, c, d, x, s, i) == a
    {
      TurnsAreInverse(p, a, b, p.add(p.add(p.i(b, c, d), x), p.t(i)), S4(s));
    }
  }

  /** Each block, whatever its words, permutes the states of the four registers. */
  lemma BlockPermutes<W(!new)>(p: Words<W>, x: seq<W>, s: Registers<W>)
    requires |x| == 16 && Laws(p)
    ensures RunBack(UndoOf(p), x, 0, 4 * |x|, Run(StepsOf(p), x, 0, 4 * |x|, s)) == s
    ensures Run(StepsOf(p), x, 0, 4 * |x|, RunBack(UndoOf(p), x, 0, 4 * |x|, s)) == s
  {
    RoundOneUndone(p);
    RoundTwoUndone(p);
    RoundThreeUndone(p);
    RoundFourUndone(p);
    InverseSteps(StepsOf(p), UndoOf(p), x);
    RunsAreInverse(StepsOf(p), UndoOf(p), x, 0, 4 * |x|, s);
  }

  // ---------- The words of MD5 ----------

  /** The table of sines. */
  function T(i: nat): bv32 {
    if i < 8 then
      [0xd76aa478, 0xe8c7b756, 0x242070db, 0xc1bdceee, 0xf57c0faf, 0x4787c62a, 0xa8304613, 0xfd469501][i]
    else if i < 16 then
      [0x698098d8, 0x8b44f7af, 0xffff5bb1, 0x895cd7be, 0x6b901122, 0xfd987193, 0xa679438e, 0x49b40821][i - 8]
    else if i < 24 then
      [0xf61e2562, 0xc040b340, 0x265e5a51, 0xe9b6c7aa, 0xd62f105d, 0x02441453, 0xd8a1e681, 0xe7d3fbc8][i - 16]
    else if i < 32 then
      [0x21e1cde6, 0xc33707d6, 0xf4d50d87, 0x455a14ed, 0xa9e3e905, 0xfcefa3f8, 0x676f02d9, 0x8d2a4c8a][i - 24]
    else if i < 40 then
      [0xfffa3942, 0x8771f681, 0x6d9d6122, 0xfde5380c, 0xa4beea44, 0x4bdecfa9, 0xf6bb4b60, 0xbebfbc70][i - 32]
    else if i < 48 then
      [0x289b7ec6, 0xeaa127fa, 0xd4ef3085, 0x04881d05, 0xd9d4d039, 0xe6db99e5, 0x1fa27cf8, 0xc4ac5665][i - 40]
    else if i < 56 then
      [0xf4292244, 0x432aff97, 0xab9423a7, 0xfc93a039, 0x655b59c3, 0x8f0ccc92, 0xffeff47d, 0x85845dd1][i - 48]
    else if i < 64 then
      [0x6fa87e4f, 0xfe2ce6e0, 0xa3014314, 0x4e0811a1, 0xf7537e82, 0xbd3af235, 0x2ad7d2bb, 0xeb86d391][i - 56]
    else 0
  }

  function F(x: bv32, y: bv32, z: bv32): bv32 { (x & y) | (!x & z) }

  function G(x: bv32, y: bv32, z: bv32): bv32 { (x & z) | (y & !z) }

  function H(x: bv32, y: bv32, z: bv32): bv32 { x ^ y ^ z }

  function I(x: bv32, y: bv32, z: bv32): bv32 { y ^ (x | !z) }

  /** F takes the bits of y where x has ones and those of z elsewhere; G chooses in the same way by z. */
  lemma RoundFunctions(x: bv32, y: bv32, z: bv32)
    ensures F(x, y, z) & x == y & x
    ensures F(x, y, z) & !x == z & !x
    ensures G(x, y, z) == F(z, x, y)
  {
  }

  /** H is the parity of its arguments: x where y and z are the same, and its complement where they differ. */
  lemma ParityIsH(x: bv32, y: bv32, z: bv32)
    ensures H(x, y, z) & !(y ^ z) == x & !(y ^ z)
    ensures H(x, y, z) & (y ^ z) == !x & (y ^ z)
  {
  }

  /** I is the difference of x and y where z has ones, and the complement of y elsewhere. */
  lemma DifferenceIsI(x: bv32, y: bv32, z: bv32)
    ensures I(x, y, z) & z == (y ^ x) & z
    ensures I(x, y, z) & !z == !y & !z
  {
  }

  function Bits(shift: Shift): (r: bv8)
    ensures 0 < r < 32
  {
    shift as bv8
  }

  function CyclicLeftRotate(data: bv32, shift: Shift): bv32 {
    RotateLeft(data, Bits(shift))
  }

  function CyclicRightRotate(data: bv32, shift: Shift): bv32 {
    RotateRight(data, Bits(shift))
  }

  function RotateLeft(data: bv32, shift: bv8): bv32
    requires 0 < shift < 32
  {
    (data << shift) | (data >> (32 - shift))
  }

  function RotateRight(data: bv32, shift: bv8): bv32
    requires 0 < shift < 32
  {
    (data >> shift) | (data << (32 - shift))
  }

  function Plus(x: bv32, y: bv32): bv32 { x + y }

  function Minus(x: bv32, y: bv32): bv32 { x - y }

  const MD5: Words<bv32> := Words(Plus, Minus, CyclicLeftRotate, CyclicRightRotate, F, G, H, I, T)

  lemma BlockPermutesRegisters(x: seq<bv32>, s: Registers<bv32>)
    requires |x| == 16
    ensures RunBack(UndoOf(MD5), x, 0, 4 * |x|, Run(StepsOf(MD5), x, 0, 4 * |x|, s)) == s
    ensures Run(StepsOf(MD5), x, 0, 4 * |x|, RunBack(UndoOf(MD5), x, 0, 4 * |x|, s)) == s
  {
    Md5Laws();
    BlockPermutes(MD5, x, s);
  }

  lemma Md5Laws()
    ensures Laws(MD5)
  {
    Additions();
    Subtractions();
    LeftRotations();
    RightRotations();
  }

  lemma Additions()
    ensures AddLaw(MD5)
  {
    forall x, k
      ensures MD5.sub(MD5.add(x, k), k) == x
    {
      AddSubtract(x, k);
    }
  }

  lemma Subtractions()
    ensures SubLaw(MD5)
  {
    forall x, k
      ensures MD5.add(MD5.sub(x, k), k) == x
    {
      SubtractAdd(x, k);
    }
  }

  lemma LeftRotations()
    ensures LeftLaw(MD5)
  {
    forall x, s
      ensures MD5.right(MD5.left(x, s), s) == x
    {
      RightAfterLeft(x, Bits(s));
    }
  }

  lemma RightRotations()
    ensures RightLaw(MD5)
  {
    forall x, s
      ensures MD5.left(MD5.right(x, s), s) == x
    {
      LeftAfterRight(x, Bits(s));
    }
  }

  lemma RightAfterLeft(x: bv32, s: bv8)
    requires 0 < s < 32
    ensures RotateRight(RotateLeft(x, s), s) == x
  {
  }

  lemma LeftAfterRight(x: bv32, s: bv8)
    requires 0 < s < 32
    ensures RotateLeft(RotateRight(x, s), s) == x
  {
  }

  lemma AddSubtract(x: bv32, k: bv32)
    ensures Minus(Plus(x, k), k) == x
  {
    calc {
      Minus(Plus(x, k), k);
    ==  { MinusOfSum(x, k); }
      x;
    }
  }

  lemma MinusOfSum(x: bv32, k: bv32)
    ensures Minus(x + k, k) == x
  {
  }

  lemma SubtractAdd(x: bv32, k: bv32)
    ensures Plus(Minus(x, k), k) == x
  {
    calc {
      Plus(Minus(x, k), k);
    ==  { PlusOfDifference(x, k); }
      x;
    }
  }

  lemma PlusOfDifference(x: bv32, k: bv32)
    ensures Plus(x - k, k) == x
  {
  }
}
