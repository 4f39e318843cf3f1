/**
 The parts of a full name: path, name, ext and name_ext of src/file/FileName.cpp. They only look for
 the last separator and the last dot of the whole text, so a dot in a directory and a missing
 separator need care; put together again they give the name back exactly when it has a separator and
 its last component does not end in a dot.
 */
module FileName {
  import opened Wrappers
  import opened Paths

  const SEP_EXT: char := '.'
  const NULL_FILE_NAME: string := "null"

  /** size_t has 64 bits: a difference below zero wraps. */
  const SIZE_MAX: nat := 0x1_0000_0000_0000_0000

  /** string::find_last_of for one character. */
  function FindLast(s: string, ch: char): (r: Option<nat>)
    ensures r.Some? ==> r.value < |s| && s[r.value] == ch
  {
    if s == "" then None
    else if s[|s| - 1] == ch then Some(|s| - 1)
    else FindLast(s[..|s| - 1], ch)
  }

  lemma {:induction false} FindLastIsLast(s: string, ch: char)
    ensures var r := FindLast(s, ch);
            if r.None? then ch !in s else ch in s && ch !in s[r.value + 1..]
  {
    if s != "" {
      var init, last := s[..|s| - 1], s[|s| - 1];
      FindLastIsLast(init, ch);
      assert s == init + [last];
      var r := FindLast(s, ch);
      if last != ch && r.Some? {
        assert s[r.value + 1..] == init[r.value + 1..] + [last];
      }
    }
  }

  /** string::substr: at most length characters from a position on. */
  function Substr(s: string, from: nat, length: nat): string
    requires from <= |s|
  {
    if from + length <= |s| then s[from..from + length] else s[from..]
  }

  /** A difference of two positions in unsigned arithmetic. */
  function Wrapped(n: int): (r: nat)
    requires 0 <= n + SIZE_MAX && n < SIZE_MAX
    ensures r < SIZE_MAX && (r - n) % SIZE_MAX == 0
  {
    if n < 0 then n + SIZE_MAX else n
  }

  predicate IsValid(s: string) {
    s != "" && s != NULL_PATH
  }

  function Path(s: string): string {
    if s == NULL_PATH then NULL_PATH
    else
      var last := FindLast(s, SEP_PATH);
      if last.Some? then Substr(s, 0, last.value + 1) else ""
  }

  function Name(s: string): string
    requires |s| < SIZE_MAX
  {
    if s == NULL_PATH then NULL_FILE_NAME
    else if !IsValid(s) then ""
    else NameBetween(s, FindLast(s, SEP_PATH), FindLast(s, SEP_EXT))
  }

  /** The name, from the places of the last separator and of the last dot. */
  function NameBetween(s: string, lastSep: Option<nat>, lastExt: Option<nat>): string
    requires s != "" && |s| < SIZE_MAX
    requires (lastSep.Some? ==> lastSep.value < |s|) && (lastExt.Some? ==> lastExt.value < |s|)
  {
    var sepPos := if lastSep.None? then 0 else lastSep.value;
    var extPos := if lastExt.None? then |s| else lastExt.value;
    Substr(s, sepPos + 1, Wrapped(extPos - sepPos - 1))
  }

  function Ext(s: string): string {
    if !IsValid(s) then ""
    else
      var extPos := FindLast(s, SEP_EXT);
      var sepPos := FindLast(s, SEP_PATH);
      // npos, where nothing is found, is above every position
      if extPos.Some? && sepPos.Some? && extPos.value > sepPos.value then s[extPos.value + 1..] else ""
  }

  function NameExt(s: string): string
    requires |s| < SIZE_MAX
  {
    if s == NULL_PATH then NULL_FILE_NAME
    else if !IsValid(s) then ""
    else if Ext(s) != "" then Name(s) + [SEP_EXT] + Ext(s)
    else Name(s)
  }

  /** What follows the last separator. */
  function LastComponent(s: string): string {
    var p := FindLast(s, SEP_PATH);
    if p.None? then s else s[p.value + 1..]
  }

  // ---------- What the parts are ----------

  lemma SplitsAt(s: string, p: nat)
    requires p < |s|
    ensures s[..p + 1] + s[p + 1..] == s && s[..p] + [s[p]] + s[p + 1..] == s
  {
  }

  /** The path is the name up to its last separator. */
  lemma PathAndLast(s: string)
    requires s != NULL_PATH && SEP_PATH in s
    ensures Path(s) + LastComponent(s) == s
    ensures SEP_PATH !in LastComponent(s) && Path(s) != "" && Path(s)[|Path(s)| - 1] == SEP_PATH
  {
    FindLastIsLast(s, SEP_PATH);
    var p := FindLast(s, SEP_PATH).value;
    SplitsAt(s, p);
    assert s[0..p + 1] == s[..p + 1];
  }

  /** The last dot of the name, seen from the last component, which begins at k. */
  lemma DotInLast(s: string, k: nat, e: Option<nat>)
    requires k <= |s| && e == FindLast(s, SEP_EXT)
    ensures if e.None? || e.value < k then SEP_EXT !in s[k..]
            else s[k..] == s[k..e.value] + [SEP_EXT] + s[e.value + 1..] && SEP_EXT !in s[e.value + 1..]
  {
    FindLastIsLast(s, SEP_EXT);
    if e.None? {
      NotInTail(s, k, SEP_EXT);
    } else if e.value >= k {
      SliceAt(s, k, e.value);
    } else {
      NotFurtherOn(s, e.value + 1, k, SEP_EXT);
    }
  }

  lemma NotFurtherOn(s: string, j: nat, k: nat, ch: char)
    requires j <= k <= |s| && ch !in s[j..]
    ensures ch !in s[k..]
  {
    NotInTail(s[j..], k - j, ch);
    assert s[j..][k - j..] == s[k..];
  }

  lemma SliceAt(s: string, k: nat, e: nat)
    requires k <= e < |s|
    ensures s[k..] == s[k..e] + [s[e]] + s[e + 1..]
  {
  }

  lemma NotInTail(s: string, k: nat, ch: char)
    requires k <= |s| && ch !in s
    ensures ch !in s[k..]
  {
  }

  /** The length that `name` takes reaches the end of the text when the subtraction wraps. */
  lemma WrappedReachesEnd(size: nat, sepPos: nat, extPos: nat)
    requires extPos <= sepPos < size < SIZE_MAX
    ensures sepPos + 1 + Wrapped(extPos - sepPos - 1) >= size
  {
  }

  lemma NameIs(s: string, p: nat, e: Option<nat>)
    requires |s| < SIZE_MAX && p < |s| && (e.Some? ==> e.value < |s| && e.value != p)
    ensures NameBetween(s, Some(p), e) == if e.Some? && e.value > p then s[p + 1..e.value] else s[p + 1..]
  {
    if e.Some? && e.value < p {
      WrappedReachesEnd(|s|, p, e.value);
    }
  }

  /**
   Below a separator, name and extension divide the last component at its last dot; a dot in a
   directory, for which the length in `name` wraps, leaves it whole.
   */
  lemma NameAndExt(s: string)
    requires s != NULL_PATH && SEP_PATH in s && |s| < SIZE_MAX
    ensures var last := LastComponent(s);
            if SEP_EXT !in last then Name(s) == last && Ext(s) == ""
            else last == Name(s) + [SEP_EXT] + Ext(s) && SEP_EXT !in Ext(s)
  {
    FindLastIsLast(s, SEP_PATH);
    var p := FindLast(s, SEP_PATH).value;
    var e := FindLast(s, SEP_EXT);
    Parts(s, p, e);
    ExtIs(s, p, e);
    NameIs(s, p, e);
    DotInLast(s, p + 1, e);
    Divides(s, p, e, LastComponent(s), Name(s), Ext(s));
  }

  lemma Divides(s: string, p: nat, e: Option<nat>, last: string, name: string, ext: string)
    requires p < |s| && (e.Some? ==> e.value < |s| && e.value != p) && last == s[p + 1..]
    requires name == if e.Some? && e.value > p then s[p + 1..e.value] else last
    requires ext == if e.Some? && e.value > p then s[e.value + 1..] else ""
    requires if e.None? || e.value < p + 1 then SEP_EXT !in last else last == name + [SEP_EXT] + ext && SEP_EXT !in ext
    ensures if SEP_EXT !in last then name == last && ext == ""
            else last == name + [SEP_EXT] + ext && SEP_EXT !in ext
  {
    if e.Some? && e.value > p {
      SplitHasDot(last, name, ext);
    }
  }

  lemma Parts(s: string, p: nat, e: Option<nat>)
    requires IsValid(s) && |s| < SIZE_MAX && FindLast(s, SEP_PATH) == Some(p) && FindLast(s, SEP_EXT) == e
    ensures LastComponent(s) == s[p + 1..] && Name(s) == NameBetween(s, Some(p), e)
    ensures e.Some? ==> e.value != p
  {
  }

  lemma ExtIs(s: string, p: nat, e: Option<nat>)
    requires IsValid(s) && FindLast(s, SEP_PATH) == Some(p) && FindLast(s, SEP_EXT) == e
    ensures Ext(s) == if e.Some? && e.value > p then s[e.value + 1..] else ""
  {
  }

  lemma SplitHasDot(last: string, name: string, ext: string)
    requires last == name + [SEP_EXT] + ext
    ensures SEP_EXT in last
  {
    assert last[|name|] == SEP_EXT;
  }

  predicate EndsInDot(s: string) {
    s != "" && s[|s| - 1] == SEP_EXT
  }

  /** Name with extension is the last component without a dot at its end. */
  lemma NameExtIs(s: string)
    requires s != NULL_PATH && SEP_PATH in s && |s| < SIZE_MAX
    ensures var last := LastComponent(s);
            if EndsInDot(last) then NameExt(s) == last[..|last| - 1] else NameExt(s) == last
  {
    NameAndExt(s);
    var last := LastComponent(s);
    if SEP_EXT in last {
      DotAtEnd(last, Name(s), Ext(s));
    }
  }

  lemma DotAtEnd(last: string, name: string, ext: string)
    requires last == name + [SEP_EXT] + ext && SEP_EXT !in ext
    ensures EndsInDot(last) <==> ext == ""
    ensures ext == "" ==> last[..|last| - 1] == name
  {
    if ext != "" {
      assert last[|last| - 1] == ext[|ext| - 1];
    }
  }

  /** Path and name with extension rebuild the full name exactly when it has a separator and no dot at its end. */
  lemma RebuildsIff(s: string)
    requires |s| < SIZE_MAX
    ensures Path(s) + NameExt(s) == s
            <==> s == "" || (s != NULL_PATH && SEP_PATH in s && !EndsInDot(LastComponent(s)))
  {
    FindLastIsLast(s, SEP_PATH);
    if s == NULL_PATH {
      assert |NULL_PATH + NULL_FILE_NAME| == 13;
    } else if SEP_PATH in s {
      PathAndLast(s);
      NameExtIs(s);
      var last := LastComponent(s);
      if EndsInDot(last) {
        assert |Path(s) + NameExt(s)| < |s|;
      }
    } else if s != "" {
      assert Path(s) == "" && Ext(s) == "" && |Name(s)| < |s|;
    }
  }

  /** The parts of the null name, and of none. */
  lemma NullParts()
    ensures Path("/dev/null") == "/dev/null" && Name("/dev/null") == NameExt("/dev/null") == "null"
    ensures Ext("/dev/null") == ""
    ensures Path("") == Name("") == NameExt("") == Ext("") == ""
  {
  }

  /** A dot at the end is lost. */
  lemma NotRebuilt()
    ensures Path("/a/b.") == "/a/" && NameExt("/a/b.") == "b"
  {
    var s := "/a/b.";
    assert s[..4] == "/a/b" && s[..3] == "/a/" && s[..2] == "/a";
    assert FindLast(s, SEP_PATH) == Some(2) && FindLast(s, SEP_EXT) == Some(4);
    assert s[5..] == "" && s[3..4] == "b";
  }
}
