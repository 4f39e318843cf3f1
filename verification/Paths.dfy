/**
 Path names as lists of components, and where they lead. A name is text with separators; what stands
 before the last separator are directories, what follows it is the leaf.
 */
module Paths {
  import opened Wrappers

  const SEP_PATH: char := '/'

  const NULL_PATH: string := "/dev/null"

  predicate NoSep(s: string) {
    forall i :: 0 <= i < |s| ==> s[i] != SEP_PATH
  }

  /** strchr: the first separator from an index on. */
  method FindSep(s: string, from: nat) returns (p: int)
    requires from <= |s|
    ensures p == -1 || from <= p < |s|
    ensures p == -1 ==> NoSep(s[from..])
    ensures p >= 0 ==> s[p] == SEP_PATH && NoSep(s[from..p])
  {
    p := from;
    while p < |s|
      invariant from <= p <= |s|
      invariant NoSep(s[from..p])
    {
      if s[p] == SEP_PATH {
        return;
      }
      assert s[from..p + 1] == s[from..p] + [s[p]];
      p := p + 1;
    }
    assert s[from..p] == s[from..];
    p := -1;
  }

  /** The first separator, or the length where there is none. */
  function SepAt(s: string): (k: nat)
    ensures k <= |s| && NoSep(s[..k])
    ensures k < |s| ==> s[k] == SEP_PATH
  {
    if s == "" || s[0] == SEP_PATH then 0
    else
      var k := 1 + SepAt(s[1..]);
      assert forall i :: 1 <= i < k ==> s[i] == s[1..][i - 1];
      k
  }

  lemma {:induction false} SepAtIs(s: string, k: nat)
    requires k <= |s| && NoSep(s[..k]) && (k < |s| ==> s[k] == SEP_PATH)
    ensures SepAt(s) == k
  {
    if k > 0 {
      assert s[0] == s[..k][0];
      var rest := s[1..];
      assert rest[..k - 1] == s[..k][1..];
      SepAtIs(rest, k - 1);
    }
  }

  /** The components that a separator follows. */
  function Dirs(s: string): (r: seq<string>)
    ensures forall i :: 0 <= i < |r| ==> NoSep(r[i])
    decreases |s|
  {
    var k := SepAt(s);
    if k == |s| then [] else [s[..k]] + Dirs(s[k + 1..])
  }

  /** The component that none follows. */
  function Leaf(s: string): (r: string)
    ensures NoSep(r)
    decreases |s|
  {
    var k := SepAt(s);
    if k == |s| then s else Leaf(s[k + 1..])
  }

  function Join(dirs: seq<string>): string {
    if dirs == [] then "" else dirs[0] + [SEP_PATH] + Join(dirs[1..])
  }

  lemma JoinCons(d: string, dirs: seq<string>)
    ensures Join([d] + dirs) == d + [SEP_PATH] + Join(dirs)
  {
    assert ([d] + dirs)[1..] == dirs;
  }

  lemma CutAt(s: string, k: nat)
    requires k < |s| && s[k] == SEP_PATH
    ensures s[..k] + [SEP_PATH] + s[k + 1..] == s
  {
  }

  /** A name is its components put together again. */
  lemma {:induction false} JoinOfParts(s: string)
    ensures Join(Dirs(s)) + Leaf(s) == s
    decreases |s|
  {
    var k := SepAt(s);
    if k < |s| {
      var d, rest := s[..k], s[k + 1..];
      JoinOfParts(rest);
      JoinCons(d, Dirs(rest));
      Regroup(d + [SEP_PATH], Join(Dirs(rest)), Leaf(rest));
      CutAt(s, k);
    }
  }

  /** And the components of a name put together are the ones it was put together from. */
  lemma {:induction false} PartsOfJoin(dirs: seq<string>, leaf: string)
    requires NoSep(leaf) && forall i :: 0 <= i < |dirs| ==> NoSep(dirs[i])
    ensures Dirs(Join(dirs) + leaf) == dirs && Leaf(Join(dirs) + leaf) == leaf
  {
    var s := Join(dirs) + leaf;
    if dirs == [] {
      assert s == leaf;
      SepAtIs(s, |s|);
    } else {
      var rest := Join(dirs[1..]) + leaf;
      assert s == dirs[0] + [SEP_PATH] + rest;
      assert s[..|dirs[0]|] == dirs[0] && s[|dirs[0]| + 1..] == rest;
      SepAtIs(s, |dirs[0]|);
      PartsOfJoin(dirs[1..], leaf);
    }
  }

  // ---------- Where a path leads ----------

  /** Following one component from a directory, which is given by its own components from the root. */
  function Follow(at: seq<string>, part: string): seq<string> {
    if part == "" || part == "." then at
    else if part == ".." then if at == [] then [] else at[..|at| - 1]
    else at + [part]
  }

  function Walk(at: seq<string>, parts: seq<string>): seq<string>
    decreases |parts|
  {
    if parts == [] then at else Walk(Follow(at, parts[0]), parts[1..])
  }

  lemma {:induction false} WalkConcat(at: seq<string>, p: seq<string>, q: seq<string>)
    ensures Walk(at, p + q) == Walk(Walk(at, p), q)
    decreases |p|
  {
    if p == [] {
      assert p + q == q;
    } else {
      assert (p + q)[1..] == p[1..] + q;
      WalkConcat(Follow(at, p[0]), p[1..], q);
    }
  }

  /** What a name leads to from a directory: from the root when the name begins with a separator. */
  function Resolve(at: seq<string>, name: string): seq<string> {
    Walk(if name != "" && name[0] == SEP_PATH then [] else at, Dirs(name) + [Leaf(name)])
  }

  predicate Plain(part: string) {
    NoSep(part) && part != "." && part != ".."
  }

  predicate AllPlain(parts: seq<string>) {
    forall i :: 0 <= i < |parts| ==> Plain(parts[i])
  }

  /** Plain components are pushed, empty ones passed over. */
  function NonEmpty(parts: seq<string>): (r: seq<string>)
    ensures |r| <= |parts|
  {
    if parts == [] then [] else (if parts[0] == "" then [] else [parts[0]]) + NonEmpty(parts[1..])
  }

  lemma {:induction false} WalkPlain(at: seq<string>, parts: seq<string>)
    requires AllPlain(parts)
    ensures Walk(at, parts) == at + NonEmpty(parts)
    decreases |parts|
  {
    if parts != [] {
      assert Plain(parts[0]);
      var rest := parts[1..];
      WalkPlain(Follow(at, parts[0]), rest);
      if parts[0] != "" {
        Regroup(at, [parts[0]], NonEmpty(rest));
      } else {
        assert [] + NonEmpty(rest) == NonEmpty(rest);
      }
    } else {
      assert at + NonEmpty(parts) == at;
    }
  }

  function Ups(n: nat): (r: seq<string>)
    ensures |r| == n
  {
    seq(n, _ => "..")
  }

  lemma {:induction false} WalkUps(at: seq<string>, n: nat)
    ensures Walk(at, Ups(n)) == if n <= |at| then at[..|at| - n] else []
  {
    if n > 0 {
      assert Ups(n)[1..] == Ups(n - 1);
      WalkUps(Follow(at, ".."), n - 1);
    }
  }
}
