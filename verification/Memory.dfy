/** Bytes written into memory, which is an array, or the sequence that it holds. */
module Memory {

  /** Memory m with the bytes w written at an address. */
  function Put(m: seq<bv8>, at: nat, w: seq<bv8>): (r: seq<bv8>)
    requires at + |w| <= |m|
    ensures |r| == |m|
  {
    m[..at] + w + m[at + |w|..]
  }

  method Memcpy(mem: array<bv8>, at: nat, w: seq<bv8>)
    requires at + |w| <= mem.Length
    modifies mem
    ensures mem[..] == Put(old(mem[..]), at, w)
  {
    forall k | 0 <= k < |w| {
      mem[at + k] := w[k];
    }
  }
}
