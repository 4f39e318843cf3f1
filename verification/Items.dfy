/**
 The fixed-width values that the stream operators of MemBuf write and read. A value is its bits, so a
 signed integer and a floating-point number are the word that holds them. The bytes go out as the host
 holds them, or the other way round on hosts for which the inversions are compiled in.
 */
module Items {
  import opened Wrappers
  import opened Elements
  import opened Lanes

  datatype Item = Bits8(x8: bv8) | Bits16(x16: bv16) | Bits32(x32: bv32) | Bits64(x64: bv64)

  datatype Kind = Kind8 | Kind16 | Kind32 | Kind64 {
    function Width(): nat {
      match this case Kind8 => 1 case Kind16 => 2 case Kind32 => 4 case Kind64 => 8
    }
  }

  /** The host, and whether __MOTOROLA_ENDIAN__ is defined. */
  datatype Host = Host(little: bool, motorola: bool)

  function KindOf(item: Item): Kind {
    match item case Bits8(_) => Kind8 case Bits16(_) => Kind16 case Bits32(_) => Kind32 case Bits64(_) => Kind64
  }

  function Inverted(b: seq<bv8>, h: Host): (r: seq<bv8>)
    ensures |r| == |b|
  {
    if h.motorola then Reversed(b) else b
  }

  /** The bytes of a variable on the host. */
  function InMemory(item: Item, h: Host): (r: seq<bv8>)
    ensures |r| == KindOf(item).Width()
  {
    match item
    case Bits8(x) => [x]
    case Bits16(x) => Store2(x, h.little)
    case Bits32(x) => Store4(x, h.little)
    case Bits64(x) => Store8(x, h.little)
  }

  /** The variable of which these are the bytes. */
  function FromMemory(kind: Kind, b: seq<bv8>, h: Host): (item: Item)
    requires |b| == kind.Width()
    ensures KindOf(item) == kind
  {
    match kind
    case Kind8 => Bits8(b[0])
    case Kind16 => Bits16(Load2(b, h.little))
    case Kind32 => Bits32(Load4(b, h.little))
    case Kind64 => Bits64(Load8(b, h.little))
  }

  /** What operator<< writes. */
  function Encoded(item: Item, h: Host): (r: seq<bv8>)
    ensures |r| == KindOf(item).Width()
  {
    if KindOf(item) == Kind8 then InMemory(item, h) else Inverted(InMemory(item, h), h)
  }

  /** What operator>> leaves in a variable into which these bytes were read. */
  function Decoded(kind: Kind, b: seq<bv8>, h: Host): (item: Item)
    requires |b| == kind.Width()
    ensures KindOf(item) == kind
  {
    FromMemory(kind, if kind == Kind8 then b else Inverted(b, h), h)
  }

  /** Where nothing could be read, the variable is inverted all the same. */
  function Unread(was: Item, h: Host): (item: Item)
    ensures KindOf(item) == KindOf(was)
  {
    Decoded(KindOf(was), InMemory(was, h), h)
  }

  lemma ReversedTwice(b: seq<bv8>)
    ensures Reversed(Reversed(b)) == b
  {
  }

  /** A variable is its bytes. */
  lemma MemoryHolds(item: Item, h: Host)
    ensures FromMemory(KindOf(item), InMemory(item, h), h) == item
  {
    match item
    case Bits8(x) =>
    case Bits16(x) =>
      ReversedTwice(Bytes2(x));
      WordOfBytes2(x);
    case Bits32(x) =>
      ReversedTwice(Bytes4(x));
      WordOfBytes4(x);
    case Bits64(x) =>
      ReversedTwice(Bytes8(x));
      WordOfBytes8(x);
  }

  lemma MemoryIs(kind: Kind, b: seq<bv8>, h: Host)
    requires |b| == kind.Width()
    ensures InMemory(FromMemory(kind, b, h), h) == b
  {
    ReversedTwice(b);
    match kind
    case Kind8 =>
    case Kind16 => BytesOfWord2(if h.little then b else Reversed(b));
    case Kind32 => BytesOfWord4(if h.little then b else Reversed(b));
    case Kind64 => BytesOfWord8(if h.little then b else Reversed(b));
  }

  lemma DecodedEncoded(item: Item, h: Host)
    ensures Decoded(KindOf(item), Encoded(item, h), h) == item
  {
    ReversedTwice(InMemory(item, h));
    MemoryHolds(item, h);
  }

  /** A failed read leaves the variable alone exactly if nothing is inverted, or its bytes read the same both ways. */
  lemma UnreadKeepsIff(was: Item, h: Host)
    ensures Unread(was, h) == was
            <==> !h.motorola || KindOf(was) == Kind8 || InMemory(was, h) == Reversed(InMemory(was, h))
  {
    MemoryHolds(was, h);
    if h.motorola && KindOf(was) != Kind8 {
      MemoryIs(KindOf(was), Reversed(InMemory(was, h)), h);
    }
  }

  /** Where the inversions match the host, the bytes are the same on every host, low byte first. */
  lemma EncodedIsPortable(item: Item, h: Host, k: Host)
    requires h.motorola == !h.little && k.motorola == !k.little
    ensures Encoded(item, h) == Encoded(item, k)
  {
    match item
    case Bits8(x) =>
    case Bits16(x) => ReversedTwice(Bytes2(x));
    case Bits32(x) => ReversedTwice(Bytes4(x));
    case Bits64(x) => ReversedTwice(Bytes8(x));
  }

  // ---------- The bytes themselves ----------

  // The low byte goes out first on little-endian hosts, and on the others where bytes are inverted.

  lemma EncodedBytes8(x: bv8, h: Host)
    ensures Encoded(Bits8(x), h) == [x]
  {
  }

  lemma EncodedBytes16(x: bv16, h: Host)
    ensures var b0, b1 := (x & 0xff) as bv8, ((x >> 8) & 0xff) as bv8;
            Encoded(Bits16(x), h) == if h.little != h.motorola then [b0, b1] else [b1, b0]
  {
    ReversedTwice(Bytes2(x));
  }

  lemma EncodedBytes32(x: bv32, h: Host)
    ensures var b0, b1, b2, b3 := (x & 0xff) as bv8, ((x >> 8) & 0xff) as bv8, ((x >> 16) & 0xff) as bv8,
                                  ((x >> 24) & 0xff) as bv8;
            Encoded(Bits32(x), h) == if h.little != h.motorola then [b0, b1, b2, b3] else [b3, b2, b1, b0]
  {
    ReversedTwice(Bytes4(x));
    ReversedFour(Bytes4(x));
  }

  lemma EncodedBytes64(x: bv64, h: Host)
    ensures var b0, b1, b2, b3 := (x & 0xff) as bv8, ((x >> 8) & 0xff) as bv8, ((x >> 16) & 0xff) as bv8,
                                  ((x >> 24) & 0xff) as bv8;
            var b4, b5, b6, b7 := ((x >> 32) & 0xff) as bv8, ((x >> 40) & 0xff) as bv8, ((x >> 48) & 0xff) as bv8,
                                  ((x >> 56) & 0xff) as bv8;
            Encoded(Bits64(x), h) == if h.little != h.motorola then [b0, b1, b2, b3, b4, b5, b6, b7]
                                     else [b7, b6, b5, b4, b3, b2, b1, b0]
  {
    ReversedTwice(Bytes8(x));
    ReversedEight(Bytes8(x));
  }

  // ---------- Lists of values ----------

  function EncodedAll(items: seq<Item>, h: Host): seq<bv8> {
    if items == [] then [] else Encoded(items[0], h) + EncodedAll(items[1..], h)
  }

  function KindsOf(items: seq<Item>): (r: seq<Kind>)
    ensures |r| == |items|
  {
    if items == [] then [] else [KindOf(items[0])] + KindsOf(items[1..])
  }

  /** Reading into one variable after the other, and where the cursor is then. */
  function ReadAll(s: seq<bv8>, pos: nat, vars: seq<Item>, h: Host): (r: (seq<Item>, nat))
    requires pos <= |s|
    ensures |r.0| == |vars| && r.1 <= |s|
    decreases |vars|
  {
    if vars == [] then ([], pos)
    else
      var (item, next) := ReadOne(s, pos, vars[0], h);
      var rest := ReadAll(s, next, vars[1..], h);
      ([item] + rest.0, rest.1)
  }

  /** Reading into a variable that held another value. */
  function ReadOne(s: seq<bv8>, pos: nat, was: Item, h: Host): (r: (Item, nat))
    requires pos <= |s|
    ensures r.1 <= |s|
  {
    var kind := KindOf(was);
    if pos + kind.Width() <= |s| then (Decoded(kind, s[pos..pos + kind.Width()], h), pos + kind.Width())
    else (Unread(was, h), pos)
  }

  lemma ReadFirst(before: seq<bv8>, item: Item, rest: seq<bv8>, was: Item, h: Host)
    requires KindOf(was) == KindOf(item)
    ensures var written := before + Encoded(item, h);
            ReadOne(written + rest, |before|, was, h) == (item, |written|)
  {
    var b := Encoded(item, h);
    assert (before + b + rest)[|before|..|before| + |b|] == b;
    DecodedEncoded(item, h);
  }

  /** What was written behind some bytes is read back, and the cursor is then behind the last value. */
  lemma {:induction false} ReadBack(before: seq<bv8>, items: seq<Item>, vars: seq<Item>, h: Host)
    requires KindsOf(vars) == KindsOf(items)
    ensures var s := before + EncodedAll(items, h); ReadAll(s, |before|, vars, h) == (items, |s|)
    decreases |items|
  {
    if items != [] {
      var b := Encoded(items[0], h);
      Regroup(before, b, EncodedAll(items[1..], h));
      assert KindOf(vars[0]) == KindsOf(vars)[0] == KindsOf(items)[0] == KindOf(items[0]);
      ReadFirst(before, items[0], EncodedAll(items[1..], h), vars[0], h);
      assert KindsOf(vars)[1..] == KindsOf(vars[1..]) && KindsOf(items)[1..] == KindsOf(items[1..]);
      ReadBack(before + b, items[1..], vars[1..], h);
      assert [items[0]] + items[1..] == items;
    } else {
      assert vars == [] && before + EncodedAll(items, h) == before;
    }
  }

  /** Reading some variables and then one more. */
  lemma {:induction false} ReadNext(s: seq<bv8>, pos: nat, vars: seq<Item>, was: Item, h: Host)
    requires pos <= |s|
    ensures var (items, at) := ReadAll(s, pos, vars, h);
            var (item, next) := ReadOne(s, at, was, h);
            ReadAll(s, pos, vars + [was], h) == (items + [item], next)
    decreases |vars|
  {
    if vars == [] {
      var item := ReadOne(s, pos, was, h).0;
      assert vars + [was] == [was] && [was][1..] == [] && [item] + [] == [] + [item];
    } else {
      ReadNext(s, ReadOne(s, pos, vars[0], h).1, vars[1..], was, h);
      assert (vars + [was])[1..] == vars[1..] + [was];
      var first := ReadOne(s, pos, vars[0], h);
      var (items, at) := ReadAll(s, first.1, vars[1..], h);
      assert ReadAll(s, pos, vars, h) == ([first.0] + items, at);
      Regroup([first.0], items, [ReadOne(s, at, was, h).0]);
    }
  }

  lemma {:induction false} EncodedAllConcat(p: seq<Item>, q: seq<Item>, h: Host)
    ensures EncodedAll(p + q, h) == EncodedAll(p, h) + EncodedAll(q, h)
  {
    if p == [] {
      assert p + q == q;
    } else {
      assert (p + q)[1..] == p[1..] + q;
      EncodedAllConcat(p[1..], q, h);
      Regroup(Encoded(p[0], h), EncodedAll(p[1..], h), EncodedAll(q, h));
    }
  }
}
