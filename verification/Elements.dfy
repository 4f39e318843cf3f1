/**
 The meaning of byte swapping: the bytes of each element reversed, the elements in their places.
 */
module Elements {

  function Reversed(b: seq<bv8>): (r: seq<bv8>)
    ensures |r| == |b|
  {
    seq(|b|, i requires 0 <= i < |b| => b[|b| - 1 - i])
  }

  /** Every whole element of the given size reversed; what is left over at the end is dropped. */
  function Swapped(b: seq<bv8>, size: nat): (r: seq<bv8>)
    requires size > 0
    ensures |r| <= |b|
  {
    if |b| < size then [] else Reversed(b[..size]) + Swapped(b[size..], size)
  }

  /** The bytes are n elements of the given size. */
  predicate Counts(b: seq<bv8>, size: nat, n: nat) {
    if n == 0 then b == [] else |b| >= size && Counts(b[size..], size, n - 1)
  }

  lemma {:induction false} SwappedLength(b: seq<bv8>, size: nat, n: nat)
    requires size > 0 && Counts(b, size, n)
    ensures |Swapped(b, size)| == |b| == n * size
  {
    if n > 0 {
      SwappedLength(b[size..], size, n - 1);
    }
  }

  lemma {:induction false} CountsLength(b: seq<bv8>, size: nat, n: nat)
    requires |b| == n * size
    ensures Counts(b, size, n)
  {
    if n > 0 {
      assert |b| == (n - 1) * size + size;
      assert (n - 1) * size >= 0;
      CountsLength(b[size..], size, n - 1);
    }
  }

  lemma {:induction false} SwappedConcat(a: seq<bv8>, b: seq<bv8>, size: nat, m: nat)
    requires size > 0 && Counts(a, size, m)
    ensures Swapped(a + b, size) == Swapped(a, size) + Swapped(b, size)
  {
    if m == 0 {
      assert a + b == b;
    } else {
      assert (a + b)[..size] == a[..size];
      assert (a + b)[size..] == a[size..] + b;
      SwappedConcat(a[size..], b, size, m - 1);
    }
  }

  /** Swapping twice gives the bytes back. */
  lemma {:induction false} SwappedTwice(b: seq<bv8>, size: nat, n: nat)
    requires size > 0 && Counts(b, size, n)
    ensures Swapped(Swapped(b, size), size) == b
  {
    if n > 0 {
      var first := Reversed(b[..size]);
      var rest := Swapped(b[size..], size);
      SwappedTwice(b[size..], size, n - 1);
      assert (first + rest)[..size] == first && (first + rest)[size..] == rest;
      assert Reversed(first) == b[..size];
      assert b == b[..size] + b[size..];
    }
  }

  /** Byte i of element e, which begins at byte k, comes from the other end of the element. */
  lemma {:induction false} SwappedAt(b: seq<bv8>, size: nat, n: nat, e: nat, k: nat, i: nat)
    requires size > 0 && Counts(b, size, n) && e < n && i < size && k == e * size
    ensures k + size <= |Swapped(b, size)| == |b|
    ensures Swapped(b, size)[k + i] == b[k + (size - 1 - i)]
    decreases n
  {
    SwappedLength(b, size, n);
    if e > 0 {
      OneLess(e, size);
      SwappedAt(b[size..], size, n - 1, e - 1, k - size, i);
    }
  }

  lemma OneLess(e: nat, size: nat)
    requires e > 0
    ensures e * size - size == (e - 1) * size >= 0
  {
  }

  lemma OneElement(b: seq<bv8>)
    requires b != []
    ensures Swapped(b, |b|) == Reversed(b)
  {
    assert b[..|b|] == b;
    assert Swapped(b[|b|..], |b|) == [];
  }
}
