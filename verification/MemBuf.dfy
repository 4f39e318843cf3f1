/**
 The growable buffer of src/memory/MemBuf.cpp: a block of memory with a length, a read position and a
 capacity, all updated in place. Every operation is proved against a plain sequence of bytes with a
 cursor; that the sequence fits into 32 bits is what the source's commented assertions ask of callers.
 */
module MemBuf {
  import opened Wrappers
  import opened Arithmetic
  import opened Memory
  import opened Growth
  import opened Crc32
  import opened Items

  /** memmove: the bytes are all read before any is written. */
  method Memmove(buf: array<bv8>, dst: nat, src: nat, n: nat)
    requires dst + n <= buf.Length && src + n <= buf.Length
    modifies buf
    ensures buf[..] == Put(old(buf[..]), dst, old(buf[..])[src..src + n])
  {
    forall i | 0 <= i < n {
      buf[dst + i] := buf[src + i];
    }
  }

  lemma Inserted(m: seq<bv8>, len: nat, at: nat, p: seq<bv8>)
    requires at <= len && len + |p| <= |m|
    ensures Put(Put(m, at + |p|, m[at..len]), at, p)[..len + |p|] == m[..len][..at] + p + m[..len][at..]
  {
    var moved := Put(m, at + |p|, m[at..len]);
    assert moved[..at] == m[..at];
    assert moved[at + |p|..len + |p|] == m[at..len] == m[..len][at..];
  }

  method InsertInto(buf: array<bv8>, len: nat, at: nat, p: seq<bv8>)
    requires at <= len && len + |p| <= buf.Length
    modifies buf
    ensures buf[..len + |p|] == old(buf[..len])[..at] + p + old(buf[..len])[at..]
  {
    ghost var m := buf[..];
    Memmove(buf, at + |p|, at, len - at);
    Memcpy(buf, at, p);
    Inserted(m, len, at, p);
    assert m[..len] == old(buf[..len]);
    assert buf[..len + |p|] == buf[..][..len + |p|];
  }

  lemma Moved(m: seq<bv8>, len: nat, dst: nat, src: nat, n: nat)
    requires dst + n <= len <= |m| && src + n <= len
    ensures Put(m, dst, m[src..src + n])[..len] == m[..len][..dst] + m[..len][src..src + n] + m[..len][dst + n..]
  {
  }

  // ---------- Runs of appends ----------

  function Joined(blocks: seq<seq<bv8>>): seq<bv8> {
    if blocks == [] then [] else Joined(blocks[..|blocks| - 1]) + blocks[|blocks| - 1]
  }

  function Lengths(blocks: seq<seq<bv8>>): (sizes: seq<nat>)
    ensures |sizes| == |blocks|
  {
    seq<nat>(|blocks|, i requires 0 <= i < |blocks| => |blocks[i]|)
  }

  lemma {:induction false} JoinedPrefix(blocks: seq<seq<bv8>>, i: nat)
    requires i <= |blocks|
    ensures |Joined(blocks[..i])| <= |Joined(blocks)|
  {
    if i < |blocks| {
      var init := blocks[..|blocks| - 1];
      JoinedPrefix(init, i);
      assert init[..i] == blocks[..i];
    } else {
      assert blocks[..i] == blocks;
    }
  }

  lemma JoinNext(before: seq<bv8>, blocks: seq<seq<bv8>>, i: nat)
    requires i < |blocks|
    ensures before + Joined(blocks[..i]) + blocks[i] == before + Joined(blocks[..i + 1])
    ensures |Joined(blocks[..i])| + |blocks[i]| <= |Joined(blocks)|
  {
    assert blocks[..i + 1][..i] == blocks[..i];
    Regroup(before, Joined(blocks[..i]), blocks[i]);
    JoinedPrefix(blocks, i + 1);
  }

  lemma LengthsNext(before: seq<nat>, blocks: seq<seq<bv8>>, i: nat)
    requires i < |blocks|
    ensures before + Lengths(blocks[..i + 1]) != []
    ensures var sizes := before + Lengths(blocks[..i + 1]);
            sizes[..|sizes| - 1] == before + Lengths(blocks[..i]) && sizes[|sizes| - 1] == |blocks[i]|
  {
  }

  /** Reading into these variables from pos on gives these values and moves the cursor there. */
  ghost predicate HasRead(s: seq<bv8>, pos: nat, vars: seq<Item>, h: Host, items: seq<Item>, to: nat)
    requires pos <= |s|
  {
    forall key {:trigger Look(key)} :: Look(key) ==> (items, to) == ReadAll(s, pos, vars, h)
  }

  lemma ReadsNext(s: seq<bv8>, pos: nat, vars: seq<Item>, i: nat, h: Host, items: seq<Item>, at: nat, item: Item,
      to: nat)
    requires pos <= |s| && at <= |s| && i < |vars|
    requires HasRead(s, pos, vars[..i], h, items, at) && (item, to) == ReadOne(s, at, vars[i], h)
    ensures HasRead(s, pos, vars[..i + 1], h, items + [item], to)
  {
    assert Look(0);
    ReadNext(s, pos, vars[..i], vars[i], h);
    assert vars[..i + 1] == vars[..i] + [vars[i]];
  }

  lemma EncodeNext(before: seq<bv8>, items: seq<Item>, i: nat, h: Host)
    requires i < |items|
    ensures before + EncodedAll(items[..i], h) + Encoded(items[i], h) == before + EncodedAll(items[..i + 1], h)
    ensures |EncodedAll(items[..i], h)| + KindOf(items[i]).Width() <= |EncodedAll(items, h)|
  {
    var one, rest := [items[i]], items[i + 1..];
    assert items[..i + 1] == items[..i] + one && items == items[..i + 1] + rest;
    EncodedAllConcat(items[..i], one, h);
    EncodedAllConcat(items[..i + 1], rest, h);
    assert EncodedAll(one, h) == Encoded(items[i], h) + EncodedAll([], h) == Encoded(items[i], h);
    Regroup(before, EncodedAll(items[..i], h), Encoded(items[i], h));
  }

  class Buffer {
    var pos: nat
    var len: nat
    var lenBuf: nat
    var buf: array<bv8>
    ghost var cost: Cost

    ghost predicate Valid()
      reads this
    {
      pos <= len <= lenBuf == buf.Length < TWO_32
    }

    /** The bytes in use. */
    ghost function Contents(): (s: seq<bv8>)
      reads this, buf
      requires Valid()
    {
      buf[..len]
    }

    /** A total length that fits into 32 bits, with its margin where the buffer must grow. */
    predicate RoomFor(total: nat)
      reads this
    {
      total < TWO_32 && (total > lenBuf ==> total < TWO_32 - MAXDELTA)
    }

    ghost function Grown(): Size
      reads this
    {
      Size(cost, lenBuf, len)
    }

    constructor (size: nat)
      requires size < TWO_32
      ensures Valid() && fresh(buf) && lenBuf == size && pos == 0 && Contents() == []
      ensures Grown() == Size(NO_COST, size, 0)
    {
      pos, len, lenBuf, cost := 0, 0, size, NO_COST;
      buf := new bv8[size];
    }

    constructor Copy(other: Buffer)
      requires other.Valid()
      ensures Valid() && fresh(buf) && pos == 0 && Contents() == other.Contents()
    {
      pos, len, lenBuf, cost := 0, other.len, other.len, NO_COST;
      buf := new bv8[other.len](i requires 0 <= i < other.len
                                  reads other, other.buf requires other.Valid() => other.buf[i]);
    }

    /** Takes a new block of memory, if it is large enough for what is in use. */
    method Realloc(newLenBuf: nat)
      requires Valid() && newLenBuf < TWO_32
      modifies this`buf, this`lenBuf, this`cost
      ensures Valid() && Contents() == old(Contents())
      ensures newLenBuf < len ==> buf == old(buf) && lenBuf == old(lenBuf) && cost == old(cost)
      ensures newLenBuf >= len ==> fresh(buf) && lenBuf == newLenBuf
      ensures newLenBuf >= len ==>
                cost == old(cost).(copied := old(cost).copied + len, reallocs := old(cost).reallocs + 1)
    {
      if newLenBuf < len {
        return;
      }
      var newBuf := new bv8[newLenBuf];
      forall i | 0 <= i < len {
        newBuf[i] := buf[i];
      }
      buf, lenBuf := newBuf, newLenBuf;
      cost := cost.(copied := cost.copied + len, reallocs := cost.reallocs + 1);
    }

    /** Makes room for a total length. */
    method MakeRoom(total: nat)
      requires Valid() && len <= total && RoomFor(total)
      modifies this`buf, this`lenBuf, this`cost
      ensures Valid() && Contents() == old(Contents()) && total <= lenBuf
      ensures buf == old(buf) || fresh(buf)
      ensures if total <= old(lenBuf) then buf == old(buf) && lenBuf == old(lenBuf) else lenBuf == Wanted(total)
      ensures Grown().(len := total) == Append(old(Grown()), total - len)
    {
      if total > lenBuf {
        RoomIff(total);
        Realloc(NewLenBuf(total));
        cost := cost.(size := total);
      }
    }

    /** Appends a block. */
    method PutBloc(p: seq<bv8>)
      requires Valid() && RoomFor(len + |p|)
      modifies this, buf
      ensures Valid() && pos == old(pos) && (buf == old(buf) || fresh(buf))
      ensures Contents() == old(Contents()) + p
      ensures Grown() == Append(old(Grown()), |p|)
      ensures if len <= old(lenBuf) then buf == old(buf) && lenBuf == old(lenBuf) else lenBuf == Wanted(len)
    {
      var total := len + |p|;
      MakeRoom(total);
      Memcpy(buf, len, p);
      len := total;
    }

    /** Inserts a block, moving what follows behind it. */
    method InsertBloc(p: seq<bv8>, at: nat)
      requires Valid() && at <= len && RoomFor(len + |p|)
      modifies this, buf
      ensures Valid() && pos == old(pos) && (buf == old(buf) || fresh(buf))
      ensures Contents() == old(Contents())[..at] + p + old(Contents())[at..]
      ensures Grown() == Append(old(Grown()), |p|)
      ensures if len <= old(lenBuf) then buf == old(buf) && lenBuf == old(lenBuf) else lenBuf == Wanted(len)
    {
      var total := len + |p|;
      MakeRoom(total);
      InsertInto(buf, len, at, p);
      len := total;
    }

    /** Reads the next bytes, or reports that there are not so many left. */
    method GetBloc(n: nat) returns (rc: int, p: seq<bv8>)
      requires Valid()
      modifies this`pos
      ensures Valid()
      ensures old(pos) + n <= len ==> rc == 0 && p == Contents()[old(pos)..old(pos) + n] && pos == old(pos) + n
      ensures old(pos) + n > len ==> rc == 1 && pos == old(pos)
    {
      if len - pos < n {
        return 1, [];
      }
      p := buf[pos..pos + n];
      assert p == Contents()[pos..pos + n];
      pos := pos + n;
      rc := 0;
    }

    /** Moves bytes within the buffer; the two areas may overlap. */
    method MoveBloc(dst: nat, src: nat, size: nat)
      requires Valid() && dst + size <= len && src + size <= len
      modifies buf
      ensures Valid()
      ensures Contents() == old(Contents())[..dst] + old(Contents())[src..src + size] + old(Contents())[dst + size..]
    {
      ghost var before := buf[..];
      Memmove(buf, dst, src, size);
      Moved(before, len, dst, src, size);
      assert buf[..len] == buf[..][..len];
    }

    /** Sets the length; the bytes that stay in use are kept. */
    method SetLen(n: nat)
      requires Valid() && n < TWO_32
      modifies this
      ensures Valid() && len == n && pos == 0 && (buf == old(buf) || fresh(buf))
      ensures n <= old(len) ==> Contents() == old(Contents())[..n]
      ensures n >= old(len) ==> Contents()[..old(len)] == old(Contents())
      ensures if n <= old(lenBuf) then buf == old(buf) && lenBuf == old(lenBuf) else lenBuf == n
    {
      if n > lenBuf {
        Realloc(n);
      }
      len := n;
      pos := 0;
    }

    method SetPos(n: nat)
      requires Valid() && n <= len
      modifies this`pos
      ensures Valid() && pos == n
    {
      pos := n;
    }

    method Empty()
      requires Valid()
      modifies this`pos, this`len
      ensures Valid() && pos == 0 && Contents() == []
    {
      pos := 0;
      len := 0;
    }

    /**
     A run of put_bloc calls on a buffer that was empty and had some capacity, and to which pieces of the
     sizes `before` have been appended: what it holds then, and what all of it has cost.
     */
    method PutBlocs(blocks: seq<seq<bv8>>, ghost capacity: nat, ghost before: seq<nat>)
      requires Valid() && RoomFor(len + |Joined(blocks)|) && Grown() == AppendAll(capacity, before)
      modifies this, buf
      ensures Valid() && pos == old(pos) && (buf == old(buf) || fresh(buf))
      ensures Contents() == old(Contents()) + Joined(blocks)
      ensures Grown() == AppendAll(capacity, before + Lengths(blocks))
      ensures (len <= 2 * MAXDELTA ==> cost.copied <= 3 * len) && cost.reallocs <= len / MAXDELTA + 28
    {
      assert before + Lengths([]) == before && old(Contents()) + Joined([]) == old(Contents());
      for i := 0 to |blocks|
        invariant Valid() && pos == old(pos) && (buf == old(buf) || fresh(buf)) && lenBuf >= old(lenBuf)
        invariant Contents() == old(Contents()) + Joined(blocks[..i])
        invariant Grown() == AppendAll(capacity, before + Lengths(blocks[..i]))
      {
        JoinNext(old(Contents()), blocks, i);
        LengthsNext(before, blocks, i);
        PutBloc(blocks[i]);
      }
      assert blocks[..|blocks|] == blocks;
      RunIsCheap(capacity, before + Lengths(blocks));
    }

    /** operator<< for the fixed-width types. */
    method PutItem(item: Item, h: Host)
      requires Valid() && RoomFor(len + KindOf(item).Width())
      modifies this, buf
      ensures Valid() && pos == old(pos) && (buf == old(buf) || fresh(buf)) && lenBuf >= old(lenBuf)
      ensures Contents() == old(Contents()) + Encoded(item, h)
    {
      PutBloc(Encoded(item, h));
    }

    /** operator>> for the fixed-width types, into a variable that holds another value. */
    method GetItem(was: Item, h: Host) returns (item: Item)
      requires Valid()
      modifies this`pos
      ensures Valid()
      ensures (item, pos) == ReadOne(Contents(), old(pos), was, h)
    {
      var kind := KindOf(was);
      var rc, b := GetBloc(kind.Width());
      if rc != 0 {
        b := InMemory(was, h);
      }
      item := Decoded(kind, b, h);
    }

    method PutAll(items: seq<Item>, h: Host)
      requires Valid() && RoomFor(len + |EncodedAll(items, h)|)
      modifies this, buf
      ensures Valid() && pos == old(pos) && (buf == old(buf) || fresh(buf))
      ensures Contents() == old(Contents()) + EncodedAll(items, h)
    {
      assert old(Contents()) + EncodedAll([], h) == old(Contents());
      for i := 0 to |items|
        invariant Valid() && pos == old(pos) && (buf == old(buf) || fresh(buf)) && lenBuf >= old(lenBuf)
        invariant Contents() == old(Contents()) + EncodedAll(items[..i], h)
      {
        EncodeNext(old(Contents()), items, i, h);
        PutItem(items[i], h);
      }
      assert items[..|items|] == items;
    }

    method GetAll(vars: seq<Item>, h: Host) returns (items: seq<Item>)
      requires Valid()
      modifies this`pos
      ensures Valid() && (items, pos) == ReadAll(Contents(), old(pos), vars, h)
    {
      items := [];
      ghost var s := Contents();
      for i := 0 to |vars|
        invariant Valid() && Contents() == s
        invariant HasRead(s, old(pos), vars[..i], h, items, pos)
      {
        ghost var at := pos;
        var item := GetItem(vars[i], h);
        ReadsNext(s, old(pos), vars, i, h, items, at, item, pos);
        items := items + [item];
      }
      assert Look(0);
      assert vars[..|vars|] == vars;
    }

    /** What is written to a buffer that has been read to its end is read back, and it is then read to its end. */
    method PutAndGet(items: seq<Item>, vars: seq<Item>, h: Host) returns (got: seq<Item>)
      requires Valid() && pos == len && RoomFor(len + |EncodedAll(items, h)|) && KindsOf(vars) == KindsOf(items)
      modifies this, buf
      ensures Valid() && got == items && pos == len
      ensures Contents() == old(Contents()) + EncodedAll(items, h)
    {
      PutAll(items, h);
      ReadBack(old(Contents()), items, vars, h);
      got := GetAll(vars, h);
    }

    /** operator=: the bytes and the read position. */
    method Assign(other: Buffer)
      requires Valid() && other.Valid() && (other == this || other.buf != buf)
      modifies this, buf
      ensures Valid() && (buf == old(buf) || fresh(buf))
      ensures Contents() == old(other.Contents()) && pos == old(other.pos)
      ensures if len <= old(lenBuf) then buf == old(buf) && lenBuf == old(lenBuf) else lenBuf == len
    {
      var p := other.buf[..other.len];
      if |p| > lenBuf {
        lenBuf := |p|;
        buf := new bv8[lenBuf];
      }
      Memcpy(buf, 0, p);
      len, pos := |p|, other.pos;
      assert buf[..len] == buf[..][..len];
    }

    method GetCrc() returns (val: bv32)
      requires Valid()
      ensures val == Checksum(Contents())
    {
      val := Crc(buf[..len], None);
    }

    method Equals(other: Buffer) returns (same: bool)
      requires Valid() && other.Valid()
      ensures same <==> Contents() == other.Contents()
    {
      if len == other.len {
        same := buf[..len] == other.buf[..len];
      } else {
        same := false;
      }
    }
  }
}
