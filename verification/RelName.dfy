/**
 FileName::rel_name of src/file/PosixFileImpl.cpp: the name of a file relative to a reference. Two
 cursors go over the separators of both names while the result is put together at both ends. It is
 proved to climb out of the reference as far as the common directories and go down from there, and to
 lead to the file exactly when no empty component stands in the way.
 */
module RelName {
  import opened Wrappers
  import opened Paths

  // ---------- What the loop computes ----------

  function Climb(n: nat): string {
    if n == 0 then "" else "../" + Climb(n - 1)
  }

  /** The relative name for the directories of the file and of the reference. */
  function Relative(dirs: seq<string>, ref: seq<string>, leaf: string): string {
    if dirs != [] && ref != [] && dirs[0] == ref[0] then Relative(dirs[1..], ref[1..], leaf)
    else Climb(|ref|) + Join(dirs) + leaf
  }

  /** How many leading directories are the same. */
  function Common(dirs: seq<string>, ref: seq<string>): (c: nat)
    ensures c <= |dirs| && c <= |ref| && dirs[..c] == ref[..c]
    ensures c < |dirs| && c < |ref| ==> dirs[c] != ref[c]
  {
    if dirs != [] && ref != [] && dirs[0] == ref[0] then
      var c := Common(dirs[1..], ref[1..]);
      assert dirs[..c + 1] == [dirs[0]] + dirs[1..][..c] && ref[..c + 1] == [ref[0]] + ref[1..][..c];
      1 + c
    else 0
  }

  /** As many "../" as the reference is deeper than the common directories, then down to the file. */
  lemma {:induction false} RelativeIs(dirs: seq<string>, ref: seq<string>, leaf: string)
    ensures var c := Common(dirs, ref);
            Relative(dirs, ref, leaf) == Climb(|ref| - c) + Join(dirs[c..]) + leaf
  {
    if dirs != [] && ref != [] && dirs[0] == ref[0] {
      RelativeIs(dirs[1..], ref[1..], leaf);
    }
  }

  // ---------- rel_name ----------

  /** The name after the first separator. */
  function AfterFirst(name: string): string
    requires SepAt(name) < |name|
  {
    name[SepAt(name) + 1..]
  }

  /** The relative name; full is the name of the file, ref that of the reference. */
  function RelNameOf(full: string, ref: string): string {
    if full == NULL_PATH then ""
    else if NoSep(full) || NoSep(ref) then full
    else Relative(Dirs(AfterFirst(full)), Dirs(AfterFirst(ref)), Leaf(AfterFirst(full)))
  }

  lemma {:induction false} ClimbLast(n: nat)
    requires n > 0
    ensures Climb(n) == Climb(n - 1) + "../"
  {
    if n > 1 {
      ClimbLast(n - 1);
    }
  }

  /** A cursor on a separator of s, or before its start, and the next separator. */
  lemma NextSep(s: string, from: nat, p: int)
    requires from <= |s| && (p == -1 || from <= p < |s|)
    requires if p == -1 then NoSep(s[from..]) else s[p] == SEP_PATH && NoSep(s[from..p])
    ensures p == -1 ==> Dirs(s[from..]) == [] && Leaf(s[from..]) == s[from..]
    ensures p >= 0 ==> Dirs(s[from..]) == [s[from..p]] + Dirs(s[p + 1..]) && Leaf(s[from..]) == Leaf(s[p + 1..])
  {
    var t := s[from..];
    if p == -1 {
      assert t[..|t|] == t;
      SepAtIs(t, |t|);
    } else {
      assert t[..p - from] == s[from..p] && t[p - from + 1..] == s[p + 1..];
      SepAtIs(t, p - from);
    }
  }

  /** The result, from what is put together so far and what the cursors have not passed. */
  ghost predicate Leads(goal: string, str: string, climbing: bool, file: string, ref: string) {
    forall key {:trigger Look(key)} :: Look(key) ==>
      if climbing then goal == Climb(|Dirs(ref)|) + str + file
      else str == "" && goal == Relative(Dirs(file), Dirs(ref), Leaf(file))
  }

  /** Before the loop the cursors stand on the first separators. */
  lemma BothBegin(full: string, ref: string, p: int, q: int)
    requires full != NULL_PATH && (p == -1 || 0 <= p < |full|) && (q == -1 || 0 <= q < |ref|)
    requires if p == -1 then NoSep(full[0..]) else full[p] == SEP_PATH && NoSep(full[0..p])
    requires if q == -1 then NoSep(ref[0..]) else ref[q] == SEP_PATH && NoSep(ref[0..q])
    ensures p == -1 || q == -1 ==> RelNameOf(full, ref) == full
    ensures p >= 0 && q >= 0 ==> Leads(RelNameOf(full, ref), "", false, full[p + 1..], ref[q + 1..])
  {
    assert full[0..] == full && ref[0..] == ref;
    if p >= 0 && q >= 0 {
      assert full[..p] == full[0..p] && ref[..q] == ref[0..q];
      SepAtIs(full, p);
      SepAtIs(ref, q);
    }
  }

  /** No directory is left in the file. */
  lemma FileEnds(goal: string, str: string, climbing: bool, file: string, ref: string)
    requires Leads(goal, str, climbing, file, ref) && Dirs(file) == []
    ensures goal == Climb(|Dirs(ref)|) + str + file
  {
    assert Look(0);
    JoinOfParts(file);
  }

  /** No directory is left in the reference. */
  lemma RefEnds(goal: string, str: string, climbing: bool, file: string, ref: string)
    requires Leads(goal, str, climbing, file, ref) && Dirs(ref) == []
    ensures goal == str + file
  {
    assert Look(0);
    JoinOfParts(file);
  }

  /** The next directories are the same, and none differed before. */
  lemma SameDirectory(goal: string, d: string, file: string, file1: string, ref: string, ref1: string)
    requires Leads(goal, "", false, file, ref)
    requires Dirs(file) == [d] + Dirs(file1) && Dirs(ref) == [d] + Dirs(ref1) && Leaf(file) == Leaf(file1)
    ensures Leads(goal, "", false, file1, ref1)
  {
    assert Look(0);
    assert Dirs(file)[1..] == Dirs(file1) && Dirs(ref)[1..] == Dirs(ref1);
  }

  /** They differ, or some did before. */
  lemma OtherDirectory(goal: string, str: string, climbing: bool, d: string, e: string, file: string, file1: string,
      ref: string, ref1: string)
    requires Leads(goal, str, climbing, file, ref) && (climbing || d != e)
    requires Dirs(file) == [d] + Dirs(file1) && Dirs(ref) == [e] + Dirs(ref1)
    requires file == d + [SEP_PATH] + file1
    ensures Leads(goal, "../" + str + (d + [SEP_PATH]), true, file1, ref1)
  {
    var n := |Dirs(ref1)|;
    MustClimb(goal, str, climbing, file, ref);
    ClimbLast(n + 1);
    Moved(Climb(n), str, d + [SEP_PATH], file1);
  }

  lemma MustClimb(goal: string, str: string, climbing: bool, file: string, ref: string)
    requires Leads(goal, str, climbing, file, ref) && Dirs(file) != [] && Dirs(ref) != []
    requires climbing || Dirs(file)[0] != Dirs(ref)[0]
    ensures goal == Climb(|Dirs(ref)|) + str + file
  {
    assert Look(0);
    JoinOfParts(file);
  }

  lemma Moved(climb: string, str: string, d: string, file: string)
    ensures climb + "../" + str + (d + file) == climb + ("../" + str + d) + file
  {
  }

  method RelName(full: string, ref: string) returns (str: string)
    ensures str == RelNameOf(full, ref)
    ensures full == "/dev/null" ==> str == ""
    ensures full != "/dev/null" && (NoSep(full) || NoSep(ref)) ==> str == full
  {
    if full == NULL_PATH {
      return "";
    }
    var p := FindSep(full, 0);
    var pRef := FindSep(ref, 0);
    BothBegin(full, ref, p, pRef);
    if p == -1 || pRef == -1 {
      return full;
    }
    ghost var goal := RelNameOf(full, ref);
    str := "";
    var climbStarted := false;
    while true
      invariant 0 <= p < |full| && 0 <= pRef < |ref| && full[p] == SEP_PATH == ref[pRef]
      invariant Leads(goal, str, climbStarted, full[p + 1..], ref[pRef + 1..])
      decreases |full| - p
    {
      var p1 := FindSep(full, p + 1);
      var pRef1 := FindSep(ref, pRef + 1);
      if p1 == -1 {
        LastOfFile(goal, str, climbStarted, full, p, ref, pRef);
        str := ClimbRest(ref, pRef, pRef1, str);
        str := str + full[p + 1..];
        return;
      }
      if pRef1 == -1 {
        LastOfRef(goal, str, climbStarted, full, p, ref, pRef);
        str := str + full[p + 1..];
        return;
      }
      NextDirectory(goal, str, climbStarted, full, p, p1, ref, pRef, pRef1);
      if p1 - p != pRef1 - pRef || climbStarted || full[p..p1] != ref[pRef..pRef1] {
        str := "../" + str;
        climbStarted := true;
        str := str + full[p + 1..p1 + 1];
      }
      p, pRef := p1, pRef1;
    }
  }

  // The same, for cursors into the names.

  predicate IsNext(s: string, from: nat, p: int) {
    && from <= |s| && (p == -1 || from <= p < |s|)
    && (p == -1 ==> NoSep(s[from..]))
    && (p >= 0 ==> s[p] == SEP_PATH && NoSep(s[from..p]))
  }

  lemma LastOfFile(goal: string, str: string, climbing: bool, full: string, p: nat, ref: string, q: nat)
    requires p < |full| && q < |ref| && Leads(goal, str, climbing, full[p + 1..], ref[q + 1..])
    requires IsNext(full, p + 1, -1)
    ensures goal == Climb(|Dirs(ref[q + 1..])|) + str + full[p + 1..]
  {
    NextSep(full, p + 1, -1);
    FileEnds(goal, str, climbing, full[p + 1..], ref[q + 1..]);
  }

  lemma LastOfRef(goal: string, str: string, climbing: bool, full: string, p: nat, ref: string, q: nat)
    requires p < |full| && q < |ref| && Leads(goal, str, climbing, full[p + 1..], ref[q + 1..])
    requires IsNext(ref, q + 1, -1)
    ensures goal == str + full[p + 1..]
  {
    NextSep(ref, q + 1, -1);
    RefEnds(goal, str, climbing, full[p + 1..], ref[q + 1..]);
  }

  lemma NextDirectory(goal: string, str: string, climbing: bool, full: string, p: nat, p1: nat, ref: string, q: nat,
      q1: nat)
    requires p < |full| && q < |ref| && Leads(goal, str, climbing, full[p + 1..], ref[q + 1..])
    requires IsNext(full, p + 1, p1) && IsNext(ref, q + 1, q1) && full[p] == SEP_PATH == ref[q]
    ensures if p1 - p != q1 - q || climbing || full[p..p1] != ref[q..q1]
            then Leads(goal, "../" + str + full[p + 1..p1 + 1], true, full[p1 + 1..], ref[q1 + 1..])
            else Leads(goal, str, climbing, full[p1 + 1..], ref[q1 + 1..])
  {
    var file0, ref0, file1, ref1 := full[p + 1..], ref[q + 1..], full[p1 + 1..], ref[q1 + 1..];
    NextSep(full, p + 1, p1);
    NextSep(ref, q + 1, q1);
    SameText(full, p, p1, ref, q, q1);
    if p1 - p != q1 - q || climbing || full[p..p1] != ref[q..q1] {
      CutAt(file0, p1 - p - 1);
      DirText(full, p, p1);
      OtherDirectory(goal, str, climbing, full[p + 1..p1], ref[q + 1..q1], file0, file1, ref0, ref1);
    } else {
      StillSame(goal, str, file0, ref0);
      SameDirectory(goal, full[p + 1..p1], file0, file1, ref0, ref1);
    }
  }

  lemma StillSame(goal: string, str: string, file: string, ref: string)
    requires Leads(goal, str, false, file, ref)
    ensures str == ""
  {
    assert Look(0);
  }

  lemma DirText(full: string, p: nat, p1: nat)
    requires p < p1 < |full| && full[p1] == SEP_PATH
    ensures full[p + 1..p1 + 1] == full[p + 1..p1] + [SEP_PATH]
    ensures full[p + 1..][..p1 - p - 1] == full[p + 1..p1] && full[p + 1..][p1 - p..] == full[p1 + 1..]
  {
  }

  /** Comparing from separator to separator compares the directories in between. */
  lemma SameText(full: string, p: nat, p1: nat, ref: string, q: nat, q1: nat)
    requires p < p1 < |full| && q < q1 < |ref| && full[p] == SEP_PATH == ref[q]
    ensures full[p..p1] == ref[q..q1] <==> full[p + 1..p1] == ref[q + 1..q1]
  {
    assert full[p..p1] == [SEP_PATH] + full[p + 1..p1];
    assert ref[q..q1] == [SEP_PATH] + ref[q + 1..q1];
    if full[p..p1] == ref[q..q1] {
      assert full[p..p1][1..] == full[p + 1..p1];
      assert ref[q..q1][1..] == ref[q + 1..q1];
    }
  }

  lemma OneUp(n: nat, str: string)
    requires n > 0
    ensures Climb(n) + str == Climb(n - 1) + ("../" + str)
  {
    ClimbLast(n);
    Regroup(Climb(n - 1), "../", str);
  }

  lemma CountNext(s: string, from: nat, p: int)
    requires IsNext(s, from, p)
    ensures |Dirs(s[from..])| == if p == -1 then 0 else 1 + |Dirs(s[p + 1..])|
  {
    NextSep(s, from, p);
  }

  /** A step up for every separator left in the reference. */
  method ClimbRest(ref: string, q: nat, pRef: int, str0: string) returns (str: string)
    requires q < |ref| && IsNext(ref, q + 1, pRef)
    ensures str == Climb(|Dirs(ref[q + 1..])|) + str0
  {
    str := str0;
    var pRef1 := pRef;
    ghost var total := |Dirs(ref[q + 1..])|;
    ghost var n := total;
    CountNext(ref, q + 1, pRef);
    while pRef1 != -1
      invariant pRef1 == -1 || 0 <= pRef1 < |ref|
      invariant n == if pRef1 == -1 then 0 else 1 + |Dirs(ref[pRef1 + 1..])|
      invariant Climb(n) + str == Climb(total) + str0
      decreases n
    {
      OneUp(n, str);
      str := "../" + str;
      var next := FindSep(ref, pRef1 + 1);
      CountNext(ref, pRef1 + 1, next);
      pRef1 := next;
      n := n - 1;
    }
  }

  // ---------- Where the relative name leads ----------

  /** The name is absolute, and none of its components is "." or "..". */
  predicate PlainName(name: string) {
    name != "" && name[0] == SEP_PATH && AllPlain(Dirs(AfterSlash(name))) && Plain(Leaf(AfterSlash(name)))
  }

  function AfterSlash(name: string): string
    requires name != ""
  {
    name[1..]
  }

  /** The directory a reference stands for: the components that a separator follows. */
  function Directory(ref: string): seq<string>
    requires ref != ""
  {
    Walk([], Dirs(AfterSlash(ref)))
  }

  /**
   From the reference's directory the relative name leads to the file, exactly when there is nothing
   to get in the way: the two names have no directory in common but the root, or else the reference
   has no empty component behind the common directories, and the name does not go down from there
   with an empty component first, which would make it absolute.
   */
  lemma RelNameLeadsIff(full: string, ref: string)
    requires full != NULL_PATH && PlainName(full) && PlainName(ref)
    ensures Resolve(Directory(ref), RelNameOf(full, ref)) == Resolve([], full) <==> Unobstructed(full, ref)
  {
    var dirs, up, leaf := Dirs(AfterSlash(full)), Dirs(AfterSlash(ref)), Leaf(AfterSlash(full));
    RelNameOfPlain(full, ref);
    WalkFile(full, dirs, leaf, Common(dirs, up));
    ComponentsLeadIff(dirs, up, leaf);
  }

  lemma ComponentsLeadIff(dirs: seq<string>, up: seq<string>, leaf: string)
    requires AllPlain(dirs) && AllPlain(up) && Plain(leaf)
    ensures var c := Common(dirs, up);
            Resolve(Walk([], up), Relative(dirs, up, leaf)) == NonEmpty(dirs[..c]) + NonEmpty(dirs[c..] + [leaf])
            <==> Clear(dirs, up)
  {
    var c := Common(dirs, up);
    RelativeIs(dirs, up, leaf);
    WalkReference(up, c);
    Slices(dirs, c);
    NonEmptyCounts(up[c..]);
    RelativeLeads(NonEmpty(dirs[..c]), NonEmpty(up[c..]), |up| - c, dirs[c..], leaf);
  }

  /** From base and then out, k steps up and then down lead to base and then down exactly if ... */
  lemma RelativeLeads(base: seq<string>, out: seq<string>, k: nat, dirs: seq<string>, leaf: string)
    requires AllPlain(dirs) && Plain(leaf) && |out| <= k
    ensures Resolve(base + out, Climb(k) + Join(dirs) + leaf) == base + NonEmpty(dirs + [leaf])
            <==> base == [] || (|out| == k && !(k == 0 && dirs != [] && dirs[0] == ""))
  {
    var down := NonEmpty(dirs + [leaf]);
    ResolveRelative(base + out, k, dirs, leaf);
    if k == 0 && dirs != [] && dirs[0] == "" {
      assert down == [] + down;
      SameOnto([], base, down);
    } else {
      WalkUps(base + out, k);
      StepsBack(base, out, k);
      SameOnto(Walk(base + out, Ups(k)), base, down);
    }
  }

  lemma StepsBack(base: seq<string>, out: seq<string>, k: nat)
    requires |out| <= k
    ensures (if k <= |base + out| then (base + out)[..|base + out| - k] else []) == base <==> base == [] || |out| == k
  {
    if |out| == k {
      assert (base + out)[..|base|] == base;
    }
  }

  lemma ResolveRelative(at: seq<string>, k: nat, dirs: seq<string>, leaf: string)
    requires AllPlain(dirs) && Plain(leaf)
    ensures Resolve(at, Climb(k) + Join(dirs) + leaf)
         == (if k == 0 && dirs != [] && dirs[0] == "" then [] else Walk(at, Ups(k))) + NonEmpty(dirs + [leaf])
  {
    RelParts(k, dirs, leaf);
    if k == 0 && dirs != [] && dirs[0] == "" {
      assert Ups(0) + dirs == dirs;
      WalkPlain([], dirs + [leaf]);
    } else {
      WalkRelative(at, k, dirs, leaf);
    }
  }

  lemma Slices(parts: seq<string>, c: nat)
    requires c <= |parts| && AllPlain(parts)
    ensures AllPlain(parts[..c]) && AllPlain(parts[c..])
  {
  }

  lemma RelNameOfPlain(full: string, ref: string)
    requires full != NULL_PATH && PlainName(full) && PlainName(ref)
    ensures RelNameOf(full, ref) == Relative(Dirs(AfterSlash(full)), Dirs(AfterSlash(ref)), Leaf(AfterSlash(full)))
  {
    SepAtIs(full, 0);
    SepAtIs(ref, 0);
  }

  lemma WalkFile(full: string, dirs: seq<string>, leaf: string, c: nat)
    requires PlainName(full) && dirs == Dirs(AfterSlash(full)) && leaf == Leaf(AfterSlash(full)) && c <= |dirs|
    ensures Resolve([], full) == NonEmpty(dirs[..c]) + NonEmpty(dirs[c..] + [leaf])
  {
    SepAtIs(full, 0);
    var parts := Dirs(full) + [Leaf(full)];
    assert full[..0] == "";
    assert parts == [""] + (dirs + [leaf]);
    assert parts[1..] == dirs + [leaf];
    assert Walk([], parts) == Walk([], dirs + [leaf]);
    WalkPlain([], dirs + [leaf]);
    assert dirs + [leaf] == dirs[..c] + (dirs[c..] + [leaf]);
    NonEmptyConcat(dirs[..c], dirs[c..] + [leaf]);
  }

  lemma WalkReference(up: seq<string>, c: nat)
    requires AllPlain(up) && c <= |up|
    ensures Walk([], up) == NonEmpty(up[..c]) + NonEmpty(up[c..])
  {
    WalkPlain([], up);
    assert [] + NonEmpty(up) == NonEmpty(up);
    NonEmptyConcat(up[..c], up[c..]);
    assert up == up[..c] + up[c..];
  }

  lemma {:induction false} NonEmptyConcat(p: seq<string>, q: seq<string>)
    ensures NonEmpty(p + q) == NonEmpty(p) + NonEmpty(q)
  {
    if p == [] {
      assert p + q == q;
    } else {
      assert (p + q)[1..] == p[1..] + q;
      NonEmptyConcat(p[1..], q);
    }
  }

  lemma {:induction false} NonEmptyCounts(parts: seq<string>)
    ensures |NonEmpty(parts)| == |parts| <==> "" !in parts
  {
    if parts != [] {
      NonEmptyCounts(parts[1..]);
      assert "" in parts <==> parts[0] == "" || "" in parts[1..];
    }
  }

  lemma SameOnto(x: seq<string>, y: seq<string>, down: seq<string>)
    ensures x + down == y + down <==> x == y
  {
    if x + down == y + down {
      assert |x| == |y|;
      assert x == (x + down)[..|x|] && y == (y + down)[..|y|];
    }
  }

  /** The components of the relative name, and when it is absolute. */
  lemma RelParts(k: nat, dirs: seq<string>, leaf: string)
    requires AllPlain(dirs) && Plain(leaf)
    ensures var rel := Climb(k) + Join(dirs) + leaf;
            && Dirs(rel) == Ups(k) + dirs && Leaf(rel) == leaf
            && (rel != "" && rel[0] == SEP_PATH <==> k == 0 && dirs != [] && dirs[0] == "")
  {
    ClimbIsJoin(k);
    JoinConcat(Ups(k), dirs);
    PartsOfJoin(Ups(k) + dirs, leaf);
    BeginsWith(k, dirs, leaf);
  }

  lemma BeginsWith(k: nat, dirs: seq<string>, leaf: string)
    requires AllPlain(dirs) && Plain(leaf)
    ensures var rel := Climb(k) + Join(dirs) + leaf;
            rel != "" && rel[0] == SEP_PATH <==> k == 0 && dirs != [] && dirs[0] == ""
  {
    var rel := Climb(k) + Join(dirs) + leaf;
    if k > 0 {
      assert Climb(k)[0] == '.';
    } else if dirs != [] {
      assert rel == dirs[0] + [SEP_PATH] + (Join(dirs[1..]) + leaf);
      assert Plain(dirs[0]);
      assert dirs[0] != "" ==> rel[0] == dirs[0][0];
    } else {
      assert rel == leaf;
    }
  }

  lemma {:induction false} ClimbIsJoin(k: nat)
    ensures Climb(k) == Join(Ups(k))
  {
    if k > 0 {
      assert Ups(k)[1..] == Ups(k - 1);
      ClimbIsJoin(k - 1);
    }
  }

  lemma {:induction false} JoinConcat(p: seq<string>, q: seq<string>)
    ensures Join(p + q) == Join(p) + Join(q)
  {
    if p == [] {
      assert p + q == q;
    } else {
      assert (p + q)[1..] == p[1..] + q;
      JoinConcat(p[1..], q);
      Regroup(p[0] + [SEP_PATH], Join(p[1..]), Join(q));
    }
  }

  lemma WalkRelative(at: seq<string>, k: nat, dirs: seq<string>, leaf: string)
    requires AllPlain(dirs) && Plain(leaf)
    ensures Walk(at, Ups(k) + dirs + [leaf]) == Walk(at, Ups(k)) + NonEmpty(dirs + [leaf])
  {
    Regroup(Ups(k), dirs, [leaf]);
    WalkConcat(at, Ups(k), dirs + [leaf]);
    WalkPlain(Walk(at, Ups(k)), dirs + [leaf]);
  }

  predicate Unobstructed(full: string, ref: string)
    requires full != "" && ref != ""
  {
    Clear(Dirs(AfterSlash(full)), Dirs(AfterSlash(ref)))
  }

  predicate Clear(dirs: seq<string>, up: seq<string>) {
    var c := Common(dirs, up);
    || NonEmpty(dirs[..c]) == []
    || ("" !in up[c..] && !(c == |up| && c < |dirs| && dirs[c] == ""))
  }

  /** The empty component of the reference "/a//" is climbed out of, and so "a" is left, where the file is. */
  lemma EmptyComponentMisleads()
    ensures PlainName("/a/f") && PlainName("/a//") && !Unobstructed("/a/f", "/a//")
    ensures RelNameOf("/a/f", "/a//") == "../f"
    ensures Resolve(Directory("/a//"), "../f") != Resolve([], "/a/f")
  {
    TwoNames("a/f", "a//");
    Misleads("/a/f", "/a//", "a/f", "a//");
  }

  lemma Misleads(full: string, ref: string, file: string, up: string)
    requires full != NULL_PATH && full == [SEP_PATH] + file && ref == [SEP_PATH] + up
    requires Dirs(file) == ["a"] && Leaf(file) == "f" && Dirs(up) == ["a", ""] && Leaf(up) == ""
    ensures PlainName(full) && PlainName(ref) && !Unobstructed(full, ref) && RelNameOf(full, ref) == "../f"
    ensures Resolve(Directory(ref), "../f") != Resolve([], full)
  {
    assert AfterSlash(full) == file && AfterSlash(ref) == up;
    OneClimb(Dirs(file), Dirs(up));
    RelNameOfPlain(full, ref);
    RelNameLeadsIff(full, ref);
  }

  lemma TwoNames(file: string, ref: string)
    requires file == "a/f" && ref == "a//"
    ensures Dirs(file) == ["a"] && Leaf(file) == "f" && Dirs(ref) == ["a", ""] && Leaf(ref) == ""
  {
    assert file == Join(["a"]) + "f" && ref == Join(["a", ""]) + "";
    PartsOfJoin(["a"], "f");
    PartsOfJoin(["a", ""], "");
  }

  lemma OneClimb(dirs: seq<string>, up: seq<string>)
    requires dirs == ["a"] && up == ["a", ""]
    ensures Relative(dirs, up, "f") == "../f" && !Clear(dirs, up)
  {
    assert dirs[1..] == [] && up[1..] == [""];
    assert Common(dirs, up) == 1;
    RelativeIs(dirs, up, "f");
    assert NonEmpty(dirs[..1]) == dirs && up[1..][0] == "";
  }
}
