/**
 FileName::mkdir of src/file/PosixFileImpl.cpp on an abstract file tree. It goes from separator to
 separator of the path, and makes every directory that is missing; any call to the system may fail.
 */
module Mkdir {
  import opened Wrappers
  import opened Paths
  import FileName

  /** A place in the tree: the components from the root on. */
  type Place = seq<string>

  datatype Kind = Directory | OtherFile

  /** What is where. */
  type Tree = map<Place, Kind>

  /** The calls that fail, by the place they are made for, and what the caller asks for. */
  datatype Calls = Calls(noStat: set<Place>, noMkdir: set<Place>, noChmod: set<Place>, noChown: set<Place>,
      mode: bool, owner: bool)

  /** The root is a directory, and every entry lies in a directory. */
  ghost predicate Rooted(t: Tree) {
    && [] in t && t[[]] == Directory
    && forall p :: p in t && p != [] ==> Parent(p) in t && t[Parent(p)] == Directory
  }

  function Parent(p: Place): Place
    requires p != []
  {
    p[..|p| - 1]
  }

  // ---------- One directory after the other ----------

  /** The places of the first i components, for i from 1 on. */
  function Prefixes(at: Place, parts: seq<string>): (r: seq<Place>)
    ensures |r| == |parts|
    decreases |parts|
  {
    if parts == [] then [] else [Follow(at, parts[0])] + Prefixes(Follow(at, parts[0]), parts[1..])
  }

  /** No call that has to be made for the place fails, and it is free or a directory. */
  predicate Passable(t: Tree, p: Place, c: Calls) {
    && p !in c.noStat
    && (p in t ==> t[p] == Directory)
    && (p !in t ==> p !in c.noMkdir && (c.mode ==> p !in c.noChmod) && (c.owner ==> p !in c.noChown))
  }

  /** The tree after trying one place. */
  function Tried(t: Tree, p: Place, c: Calls): Tree {
    if p in c.noStat || p in t || p in c.noMkdir then t else t[p := Directory]
  }

  /** The tree after trying the places up to the first that is not passable, and whether all were. */
  function AllTried(t: Tree, places: seq<Place>, c: Calls): (r: (Tree, bool))
    decreases |places|
  {
    if places == [] then (t, true)
    else if !Passable(t, places[0], c) then (Tried(t, places[0], c), false)
    else AllTried(Tried(t, places[0], c), places[1..], c)
  }

  // ---------- mkdir ----------

  method MakeOne(t: Tree, p: Place, c: Calls) returns (r: Tree, ok: bool)
    ensures r == Tried(t, p, c) && ok == Passable(t, p, c)
  {
    r := t;
    if p in c.noStat {
      return r, false;
    }
    if p !in t {
      if p in c.noMkdir {
        return r, false;
      }
      r := t[p := Directory];
      if c.mode && p in c.noChmod {
        return r, false;
      }
      if c.owner && p in c.noChown {
        return r, false;
      }
    } else if t[p] != Directory {
      return r, false;
    }
    ok := true;
  }

  // ---------- Where the separators are ----------

  /** The path part of an absolute name: everything but the leaf. */
  lemma PathIs(full: string)
    requires full != "" && full[0] == SEP_PATH && full != NULL_PATH
    ensures FileName.Path(full) == [SEP_PATH] + Join(Dirs(full[1..]))
  {
    JoinOfParts(full[1..]);
    assert SEP_PATH in full;
    FileName.PathAndLast(full);
    var x, leaf := [SEP_PATH] + Join(Dirs(full[1..])), Leaf(full[1..]);
    assert full == x + leaf by {
      Regroup([SEP_PATH], Join(Dirs(full[1..])), leaf);
    }
    EndsInSep(Dirs(full[1..]));
    LastSplit(FileName.Path(full), FileName.LastComponent(full), x, leaf);
  }

  lemma {:induction false} EndsInSep(dirs: seq<string>)
    ensures var x := [SEP_PATH] + Join(dirs); x[|x| - 1] == SEP_PATH
  {
    if dirs != [] {
      EndsInSep(dirs[1..]);
    }
  }

  lemma LastSplit(x: string, l: string, y: string, m: string)
    requires x + l == y + m && SEP_PATH !in l && NoSep(m) && x != "" && y != ""
    requires x[|x| - 1] == SEP_PATH == y[|y| - 1]
    ensures x == y
  {
    var s := x + l;
    assert s[|x| - 1] == SEP_PATH && s[|y| - 1] == SEP_PATH;
    assert forall i :: |x| <= i < |s| ==> s[i] == l[i - |x|];
    assert forall i :: |y| <= i < |s| ==> s[i] == m[i - |y|];
    assert |x| == |y|;
    assert x == s[..|x|] && y == s[..|y|];
  }

  /** The cursor stands on the separator behind the first directory that is left. */
  ghost predicate CursorBetween(str: string, p: int, done: seq<string>, left: seq<string>) {
    && left != [] && p == 1 + |Join(done)| + |left[0]|
    && str == [SEP_PATH] + Join(done) + Join(left)
    && (forall i :: 0 <= i < |done| ==> NoSep(done[i])) && (forall i :: 0 <= i < |left| ==> NoSep(left[i]))
  }

  lemma PrefixAt(str: string, p: int, done: seq<string>, left: seq<string>)
    requires CursorBetween(str, p, done, left)
    ensures 0 < p < |str| && str[p] == SEP_PATH && str[..p] == [SEP_PATH] + (Join(done) + left[0])
    ensures str[p + 1..] == Join(left[1..])
  {
    var head := [SEP_PATH] + Join(done);
    assert Join(left) == left[0] + [SEP_PATH] + Join(left[1..]);
    assert str == head + left[0] + ([SEP_PATH] + Join(left[1..]));
    assert |head + left[0]| == p;
    assert str[..p] == head + left[0];
    assert str[p..] == [SEP_PATH] + Join(left[1..]);
    assert str[p + 1..] == str[p..][1..];
    Regroup([SEP_PATH], Join(done), left[0]);
  }

  /** What the system takes the text up to the cursor to mean. */
  lemma PrefixMeans(str: string, p: int, done: seq<string>, left: seq<string>)
    requires CursorBetween(str, p, done, left)
    ensures 0 < p < |str| && Resolve([], str[..p]) == Follow(Walk([], done), left[0])
  {
    PrefixAt(str, p, done, left);
    var name := str[..p];
    assert name[1..] == Join(done) + left[0];
    PartsOfJoin(done, left[0]);
    SepAtIs(name, 0);
    assert name[..0] == "";
    var parts := [""] + done + [left[0]];
    assert Dirs(name) + [Leaf(name)] == parts;
    assert parts[1..] == done + [left[0]];
    WalkConcat([], done, [left[0]]);
    assert [left[0]][1..] == [];
    assert Walk(Walk([], done), [left[0]]) == Follow(Walk([], done), left[0]);
  }

  lemma NextAt(str: string, p: int, done: seq<string>, left: seq<string>, next: int)
    requires CursorBetween(str, p, done, left) && p + 1 <= |str| && (next == -1 || p + 1 <= next < |str|)
    requires next == -1 ==> NoSep(str[p + 1..])
    requires next >= 0 ==> str[next] == SEP_PATH && NoSep(str[p + 1..next])
    ensures next == -1 ==> left[1..] == []
    ensures next >= 0 ==> CursorBetween(str, next, done + [left[0]], left[1..])
    ensures Walk([], done + [left[0]]) == Follow(Walk([], done), left[0])
  {
    PrefixAt(str, p, done, left);
    WalkConcat([], done, [left[0]]);
    assert [left[0]][1..] == [];
    FirstOf(str, p, left[1..], next);
    JoinSnoc(done, left[0]);
    Regroup([SEP_PATH] + Join(done), left[0] + [SEP_PATH], Join(left[1..]));
    Regroup([SEP_PATH], Join(done), left[0] + [SEP_PATH]);
  }

  /** The next separator ends the first component of the rest. */
  lemma FirstOf(str: string, p: int, rest: seq<string>, next: int)
    requires 0 <= p < |str| && str[p + 1..] == Join(rest) && (forall i :: 0 <= i < |rest| ==> NoSep(rest[i]))
    requires next == -1 || p + 1 <= next < |str|
    requires next == -1 ==> NoSep(str[p + 1..])
    requires next >= 0 ==> str[next] == SEP_PATH && NoSep(str[p + 1..next])
    ensures next == -1 ==> rest == []
    ensures next >= 0 ==> rest != [] && next == p + 1 + |rest[0]|
  {
    var t := str[p + 1..];
    if rest != [] {
      assert t == rest[0] + [SEP_PATH] + Join(rest[1..]);
      assert t[|rest[0]|] == SEP_PATH;
      assert t[..|rest[0]|] == rest[0];
      SepAtIs(t, |rest[0]|);
      if next >= 0 {
        assert t[..next - p - 1] == str[p + 1..next];
        SepAtIs(t, next - p - 1);
      }
    }
  }

  lemma {:induction false} JoinSnoc(dirs: seq<string>, d: string)
    ensures Join(dirs + [d]) == Join(dirs) + (d + [SEP_PATH])
  {
    if dirs == [] {
      assert [d][1..] == [];
      assert [] + [d] == [d];
    } else {
      assert (dirs + [d])[1..] == dirs[1..] + [d];
      JoinSnoc(dirs[1..], d);
      Regroup(dirs[0] + [SEP_PATH], Join(dirs[1..]), d + [SEP_PATH]);
    }
  }

  lemma FirstAt(str: string, dirs: seq<string>, p: int)
    requires str == [SEP_PATH] + Join(dirs) && (forall i :: 0 <= i < |dirs| ==> NoSep(dirs[i]))
    requires p == -1 || 1 <= p < |str|
    requires p == -1 ==> NoSep(str[1..])
    requires p >= 0 ==> str[p] == SEP_PATH && NoSep(str[1..p])
    ensures p == -1 ==> dirs == []
    ensures p >= 0 ==> CursorBetween(str, p, [], dirs)
  {
    assert str[1..] == Join(dirs);
    FirstOf(str, 0, dirs, p);
    assert [SEP_PATH] + Join([]) == [SEP_PATH];
  }

  // ---------- mkdir ----------

  class FileTree {
    var tree: Tree

    constructor (t: Tree)
      ensures tree == t
    {
      tree := t;
    }

    /** Makes the directories of an absolute name; ok is false where the source throws. */
    method Mkdir(full: string, c: Calls) returns (ok: bool)
      requires full != "" ==> full[0] == SEP_PATH
      modifies this
      ensures full == "" || full == NULL_PATH ==> ok && tree == old(tree)
      ensures full != "" && full != NULL_PATH ==> (tree, ok) == AllTried(old(tree), Prefixes([], Dirs(full[1..])), c)
    {
      if full == NULL_PATH {
        return true;
      }
      var str := FileName.Path(full);
      if full != "" {
        PathIs(full);
      }
      if str == "" {
        return true;
      }
      var p := FindSep(str, 0);
      assert str[0..] == str;
      if p == -1 {
        return false;
      }
      FirstIsRoot(str, p);
      p := FindSep(str, p + 1);
      FirstAt(str, Dirs(full[1..]), p);
      if p == -1 {
        return true;
      }
      ok := MakeAll(str, p, c, Dirs(full[1..]));
    }

    /** The loop, from the separator behind the first directory on. */
    method MakeAll(str: string, p0: int, c: Calls, ghost dirs: seq<string>) returns (ok: bool)
      requires CursorBetween(str, p0, [], dirs)
      modifies this
      ensures (tree, ok) == AllTried(old(tree), Prefixes([], dirs), c)
    {
      var p := p0;
      ghost var done, left := [], dirs;
      while true
        invariant CursorBetween(str, p, done, left)
        invariant AllTried(old(tree), Prefixes([], dirs), c) == AllTried(tree, Prefixes(Walk([], done), left), c)
        decreases |left|
      {
        PrefixMeans(str, p, done, left);
        TryNext(tree, Walk([], done), left, c);
        var made;
        tree, made := MakeOne(tree, Resolve([], str[..p]), c);
        if !made {
          return false;
        }
        var next := FindSep(str, p + 1);
        NextAt(str, p, done, left, next);
        if next == -1 {
          return true;
        }
        done, left := done + [left[0]], left[1..];
        p := next;
      }
    }
  }

  lemma TryNext(t: Tree, at: Place, left: seq<string>, c: Calls)
    requires left != []
    ensures var p := Follow(at, left[0]);
            && (!Passable(t, p, c) ==> AllTried(t, Prefixes(at, left), c) == (Tried(t, p, c), false))
            && (Passable(t, p, c) ==>
                  AllTried(t, Prefixes(at, left), c) == AllTried(Tried(t, p, c), Prefixes(p, left[1..]), c))
            && (Passable(t, p, c) && left[1..] == [] ==> AllTried(t, Prefixes(at, left), c) == (Tried(t, p, c), true))
  {
    var p := Follow(at, left[0]);
    assert Prefixes(at, left)[1..] == Prefixes(p, left[1..]);
  }

  lemma FirstIsRoot(str: string, p: int)
    requires str != "" && str[0] == SEP_PATH && 0 <= p < |str| && NoSep(str[0..p])
    ensures p == 0
  {
    assert str[..p] == str[0..p];
    SepAtIs(str, p);
  }

  // ---------- What a call leaves behind ----------

  /** Nothing that was there is touched, and all that is new are directories on the way. */
  lemma {:induction false} OnlyMakes(t: Tree, places: seq<Place>, c: Calls)
    ensures var r := AllTried(t, places, c).0;
            && (forall p :: p in t ==> p in r && r[p] == t[p])
            && (forall p :: p in r && p !in t ==> p in places && r[p] == Directory)
    decreases |places|
  {
    if places != [] && Passable(t, places[0], c) {
      OnlyMakes(Tried(t, places[0], c), places[1..], c);
    }
  }

  /** A call that does not throw leaves every prefix of the path a directory: those it found, and the missing ones. */
  lemma {:induction false} AllMade(t: Tree, places: seq<Place>, c: Calls)
    requires AllTried(t, places, c).1
    ensures var r := AllTried(t, places, c).0;
            && (forall p :: p in places ==> p in r && r[p] == Directory)
            && r.Keys == t.Keys + (set p | p in places)
    decreases |places|
  {
    if places != [] {
      var t1 := Tried(t, places[0], c);
      AllMade(t1, places[1..], c);
      OnlyMakes(t1, places[1..], c);
      assert places == [places[0]] + places[1..];
    }
  }

  /**
   It throws exactly when, in the tree it finds, one of the places cannot be looked at, or is something else
   than a directory, or is missing and cannot be made, or given the mode or the owner asked for.
   */
  lemma SucceedsIff(t: Tree, places: seq<Place>, c: Calls)
    ensures AllTried(t, places, c).1 <==>
            && (forall p :: p in places ==> p !in c.noStat && (p in t ==> t[p] == Directory))
            && (forall p :: p in places && p !in t ==>
                  p !in c.noMkdir && (c.mode ==> p !in c.noChmod) && (c.owner ==> p !in c.noChown))
  {
    PassesIff(t, places, c);
  }

  lemma {:induction false} PassesIff(t: Tree, places: seq<Place>, c: Calls)
    ensures AllTried(t, places, c).1 <==> forall p :: p in places ==> Passable(t, p, c)
    decreases |places|
  {
    if places != [] {
      var t1 := Tried(t, places[0], c);
      PassesIff(t1, places[1..], c);
      assert places == [places[0]] + places[1..];
      assert Passable(t, places[0], c) ==> forall p :: p != places[0] ==> (Passable(t, p, c) <==> Passable(t1, p, c));
      assert Passable(t, places[0], c) ==> Passable(t1, places[0], c);
    }
  }

  /**
   Where it throws at place k, the places before it have been made, and so has this one, unless it was there,
   could not be looked at, or could not be made: a directory that cannot be given its mode or owner stays.
   */
  lemma {:induction false} ThrowsAt(t: Tree, places: seq<Place>, c: Calls, k: nat)
    requires k < |places| && AllTried(t, places[..k], c).1 && !AllTried(t, places[..k + 1], c).1
    ensures var (r, ok) := AllTried(t, places, c);
            && !ok
            && r.Keys == t.Keys + (set p | p in places[..k])
                      + (if places[k] in c.noStat || places[k] in c.noMkdir then {} else {places[k]})
    decreases k
  {
    assert places[..k + 1][1..] == places[1..][..k];
    if k == 0 {
      assert places[..1] == [places[0]] && places[..0] == [];
      assert AllTried(Tried(t, places[0], c), places[..1][1..], c).1;
    } else {
      var t1 := Tried(t, places[0], c);
      assert places[..k][1..] == places[1..][..k - 1] && places[..k] == [places[0]] + places[1..][..k - 1];
      ThrowsAt(t1, places[1..], c, k - 1);
    }
  }

  /** The places are those of the first i components. */
  lemma {:induction false} PrefixesAt(at: Place, parts: seq<string>, i: nat)
    requires i < |parts|
    ensures Prefixes(at, parts)[i] == Walk(at, parts[..i + 1])
    decreases |parts|
  {
    assert parts[..i + 1][1..] == parts[1..][..i];
    if i > 0 {
      PrefixesAt(Follow(at, parts[0]), parts[1..], i - 1);
    } else {
      assert parts[..1][1..] == [];
    }
  }

  lemma {:induction false} AncestorIn(t: Tree, p: Place, k: nat)
    requires Rooted(t) && p in t && t[p] == Directory && k <= |p|
    ensures p[..k] in t && t[p[..k]] == Directory
    decreases |p|
  {
    if k < |p| {
      AncestorIn(t, Parent(p), k);
      assert Parent(p)[..k] == p[..k];
    } else {
      assert p[..k] == p;
    }
  }

  /** One more component leads to something that is there, or to a place in the directory before it. */
  lemma FollowRooted(t: Tree, at: Place, part: string)
    requires Rooted(t) && at in t && t[at] == Directory
    ensures var p := Follow(at, part); p !in t ==> p != [] && Parent(p) == at
  {
    if part == ".." && at != [] {
      AncestorIn(t, at, |at| - 1);
    }
  }

  /** Whatever happens, every entry of the tree lies in a directory; mkdir never asks for one that does not. */
  lemma {:induction false} StaysRooted(t: Tree, at: Place, parts: seq<string>, c: Calls)
    requires Rooted(t) && at in t && t[at] == Directory
    ensures Rooted(AllTried(t, Prefixes(at, parts), c).0)
    decreases |parts|
  {
    if parts != [] {
      var p := Follow(at, parts[0]);
      FollowRooted(t, at, parts[0]);
      TriedRooted(t, p, c);
      TryNext(t, at, parts, c);
      if Passable(t, p, c) {
        StaysRooted(Tried(t, p, c), p, parts[1..], c);
      }
    }
  }

  lemma TriedRooted(t: Tree, p: Place, c: Calls)
    requires Rooted(t) && (p !in t ==> p != [] && Parent(p) in t && t[Parent(p)] == Directory)
    ensures Rooted(Tried(t, p, c))
  {
  }
}
