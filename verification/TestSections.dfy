/**
 The static shape of a test: a test case with its nested sections, as the body of the test would
 meet them, and the order in which its leaves come. Nothing here knows about trackers.
 */
module TestSections {

  datatype NameAndLocation = NameAndLocation(name: string, file: string, line: nat)

  datatype Section = Section(id: NameAndLocation, kids: seq<Section>)

  /** Sections with the same parent can be told apart, at every level. */
  ghost predicate DistinctSiblings(s: Section) {
    && (forall i, j :: 0 <= i < j < |s.kids| ==> s.kids[i].id != s.kids[j].id)
    && (forall i :: 0 <= i < |s.kids| ==> DistinctSiblings(s.kids[i]))
  }

  // ---------- Counting leaves ----------

  function Leaves(s: Section): (n: nat)
    ensures n >= 1
    decreases s
  {
    if s.kids == [] then 1 else LeavesBefore(s.kids, |s.kids|)
  }

  /** The leaves in the first i sections of a list. */
  function LeavesBefore(ss: seq<Section>, i: nat): (n: nat)
    requires i <= |ss|
    ensures n >= i
    decreases ss, i
  {
    if i == 0 then 0 else LeavesBefore(ss, i - 1) + Leaves(ss[i - 1])
  }

  lemma {:induction false} LeavesBeforeMonotone(ss: seq<Section>, i: nat, j: nat)
    requires i <= j <= |ss|
    ensures LeavesBefore(ss, i) + (j - i) <= LeavesBefore(ss, j)
    decreases j
  {
    if i < j {
      LeavesBeforeMonotone(ss, i, j - 1);
    }
  }

  /** How many leaves of section i are done once k leaves of the whole list are done. */
  function Share(ss: seq<Section>, i: nat, k: nat): (n: nat)
    requires i < |ss|
    ensures n <= Leaves(ss[i])
  {
    if k <= LeavesBefore(ss, i) then 0
    else if k >= LeavesBefore(ss, i + 1) then Leaves(ss[i])
    else k - LeavesBefore(ss, i)
  }

  /** One more leaf, held by section c, changes the share of that section only. */
  lemma ShareSteps(ss: seq<Section>, c: nat, k: nat, j: nat)
    requires c < |ss| && j < |ss| && LeavesBefore(ss, c) <= k < LeavesBefore(ss, c + 1)
    ensures j < c ==> Share(ss, j, k) == Share(ss, j, k + 1) == Leaves(ss[j]) && LeavesBefore(ss, j + 1) <= k
    ensures j > c ==> Share(ss, j, k) == Share(ss, j, k + 1) == 0 && LeavesBefore(ss, j) > k
    ensures j == c ==> Share(ss, j, k) == k - LeavesBefore(ss, c) < Leaves(ss[c])
    ensures j == c ==> Share(ss, j, k + 1) == k - LeavesBefore(ss, c) + 1
  {
    if j < c {
      LeavesBeforeMonotone(ss, j + 1, c);
    } else if j > c {
      LeavesBeforeMonotone(ss, c + 1, j);
    }
  }

  /** The shares of the first n sections when k leaves are done, and sections before i count one more leaf. */
  function Shares(ss: seq<Section>, k: nat, i: nat, n: nat): (ns: seq<nat>)
    requires n <= |ss|
    ensures |ns| == n
  {
    seq<nat>(n, j requires 0 <= j < n => Share(ss, j, if j < i then k + 1 else k))
  }

  /** Passing section i: its share grows by one if the leaf is in it, and stays otherwise. */
  lemma SharesPass(ss: seq<Section>, k: nat, i: nat, n: nat)
    requires i < n <= |ss| && k < LeavesBefore(ss, |ss|)
    ensures Shares(ss, k, i + 1, n) == Shares(ss, k, i, n)[i := Share(ss, i, k + 1)]
    ensures Shares(ss, k, i, n)[i] == Share(ss, i, k)
    ensures
      if k < LeavesBefore(ss, i) then Share(ss, i, k) == 0 == Share(ss, i, k + 1)
      else if k >= LeavesBefore(ss, i + 1) then Share(ss, i, k) == Leaves(ss[i]) == Share(ss, i, k + 1)
      else
        Share(ss, i, k) == k - LeavesBefore(ss, i) < Leaves(ss[i]) && Share(ss, i, k + 1) == k - LeavesBefore(ss, i) + 1
  {
    ShareSteps(ss, ChildWith(ss, k, 0), k, i);
  }

  /** The last section is done exactly when all are. */
  lemma LastShare(ss: seq<Section>, k: nat)
    requires ss != [] && 0 < k <= LeavesBefore(ss, |ss|)
    ensures Share(ss, |ss| - 1, k) == Leaves(ss[|ss| - 1]) <==> k == LeavesBefore(ss, |ss|)
  {
  }

  /** When all sections have been passed, k + 1 leaves are done. */
  lemma SharesAll(ss: seq<Section>, k: nat)
    ensures Shares(ss, k, |ss|, |ss|) == Shares(ss, k + 1, 0, |ss|)
  {
  }

  /** The section that holds leaf number k of the list, looking from section i on. */
  function ChildWith(ss: seq<Section>, k: nat, i: nat): (c: nat)
    requires i < |ss| && LeavesBefore(ss, i) <= k < LeavesBefore(ss, |ss|)
    ensures i <= c < |ss| && LeavesBefore(ss, c) <= k < LeavesBefore(ss, c + 1)
    decreases |ss| - i
  {
    if k < LeavesBefore(ss, i + 1) then i else ChildWith(ss, k, i + 1)
  }

  lemma ChildWithUnique(ss: seq<Section>, k: nat, i: nat, c: nat)
    requires i <= c < |ss| && LeavesBefore(ss, i) <= k
    requires LeavesBefore(ss, c) <= k < LeavesBefore(ss, c + 1)
    ensures k < LeavesBefore(ss, |ss|) && ChildWith(ss, k, i) == c
  {
    LeavesBeforeMonotone(ss, c + 1, |ss|);
    var d := ChildWith(ss, k, i);
    if d < c {
      LeavesBeforeMonotone(ss, d + 1, c);
    } else if c < d {
      LeavesBeforeMonotone(ss, c + 1, d);
    }
  }

  // ---------- Paths ----------

  type Path = seq<NameAndLocation>

  /** The path from the section down to its leaf number k. */
  function PathTo(s: Section, k: nat): (p: Path)
    requires k < Leaves(s)
    ensures p != [] && p[0] == s.id
    decreases s, 1
  {
    if s.kids == [] then [s.id] else [s.id] + PathWithin(s.kids, k, 0)
  }

  /** The path to leaf number k of a list, known to be in section i or a later one. */
  function PathWithin(ss: seq<Section>, k: nat, i: nat): (p: Path)
    requires i < |ss| && LeavesBefore(ss, i) <= k < LeavesBefore(ss, |ss|)
    ensures p != [] && p[0] == ss[ChildWith(ss, k, i)].id
    decreases ss, 0
  {
    var c := ChildWith(ss, k, i);
    PathTo(ss[c], k - LeavesBefore(ss, c))
  }

  /** The path leads from the section to one of its leaves. */
  predicate IsLeafPath(s: Section, p: Path)
    decreases s
  {
    && p != [] && p[0] == s.id
    && if s.kids == [] then |p| == 1 else exists i :: 0 <= i < |s.kids| && IsLeafPath(s.kids[i], p[1..])
  }

  /** All paths to leaves, depth first: what a reader of the test expects to be run, in order. */
  function LeafPaths(s: Section): seq<Path>
    decreases s
  {
    if s.kids == [] then [[s.id]] else Prepend(s.id, LeafPathsOf(s.kids))
  }

  function LeafPathsOf(ss: seq<Section>): seq<Path>
    decreases ss
  {
    if ss == [] then [] else LeafPaths(ss[0]) + LeafPathsOf(ss[1..])
  }

  function Prepend(id: NameAndLocation, ps: seq<Path>): seq<Path> {
    seq(|ps|, i requires 0 <= i < |ps| => [id] + ps[i])
  }

  /** The leaves of earlier sections come first. */
  lemma {:induction false} LeafPathsOfConcat(x: seq<Section>, y: seq<Section>)
    ensures LeafPathsOf(x + y) == LeafPathsOf(x) + LeafPathsOf(y)
    decreases |x|
  {
    if x == [] {
      assert x + y == y;
    } else {
      assert (x + y)[1..] == x[1..] + y;
      LeafPathsOfConcat(x[1..], y);
      assert LeafPaths(x[0]) + (LeafPathsOf(x[1..]) + LeafPathsOf(y))
          == (LeafPaths(x[0]) + LeafPathsOf(x[1..])) + LeafPathsOf(y);
    }
  }

  /** Leaf number k of the depth-first list is the leaf that PathTo finds. */
  lemma {:induction false} LeafPathsInOrder(s: Section)
    ensures |LeafPaths(s)| == Leaves(s)
    ensures forall k :: 0 <= k < Leaves(s) ==> LeafPaths(s)[k] == PathTo(s, k)
    decreases s, 1
  {
    if s.kids != [] {
      LeafPathsOfInOrder(s.kids, s.kids, 0);
      forall k | 0 <= k < Leaves(s)
        ensures LeafPaths(s)[k] == PathTo(s, k)
      {
        assert LeafPathsOf(s.kids)[k] == PathWithin(s.kids, k + LeavesBefore(s.kids, 0), 0);
      }
    }
  }

  /** ps is the list of paths to the leaves of the sections from number i on. */
  ghost predicate ListsFrom(all: seq<Section>, i: nat, ps: seq<Path>)
    requires i <= |all|
  {
    && LeavesBefore(all, i) + |ps| == LeavesBefore(all, |all|)
    && forall k :: 0 <= k < |ps| ==> i < |all| && ps[k] == PathWithin(all, k + LeavesBefore(all, i), i)
  }

  lemma {:induction false} LeafPathsOfInOrder(all: seq<Section>, ss: seq<Section>, i: nat)
    requires i <= |all| && ss == all[i..]
    ensures ListsFrom(all, i, LeafPathsOf(ss))
    decreases all, 0, |ss|
  {
    if ss != [] {
      assert ss[0] == all[i] && ss[1..] == all[i + 1..];
      LeafPathsInOrder(all[i]);
      LeafPathsOfInOrder(all, ss[1..], i + 1);
      OneMoreSection(all, i, LeafPaths(all[i]), LeafPathsOf(ss[1..]));
    }
  }

  lemma OneMoreSection(all: seq<Section>, i: nat, first: seq<Path>, rest: seq<Path>)
    requires i < |all| && |first| == Leaves(all[i])
    requires forall k :: 0 <= k < |first| ==> first[k] == PathTo(all[i], k)
    requires ListsFrom(all, i + 1, rest)
    ensures ListsFrom(all, i, first + rest)
  {
    var both := first + rest;
    LeavesUpTo(all, i);
    forall k | 0 <= k < |both|
      ensures both[k] == PathWithin(all, k + LeavesBefore(all, i), i)
    {
      if k < |first| {
        assert both[k] == first[k];
        OneOfFirst(all, i, k);
      } else {
        assert both[k] == rest[k - |first|];
        OneOfRest(all, i, rest, k - |first|);
      }
    }
  }

  lemma LeavesUpTo(all: seq<Section>, i: nat)
    requires i < |all|
    ensures LeavesBefore(all, i + 1) == LeavesBefore(all, i) + Leaves(all[i])
  {
  }

  lemma OneOfFirst(all: seq<Section>, i: nat, k: nat)
    requires i < |all| && k < Leaves(all[i])
    ensures k + LeavesBefore(all, i) < LeavesBefore(all, |all|)
    ensures PathWithin(all, k + LeavesBefore(all, i), i) == PathTo(all[i], k)
  {
    LeavesBeforeMonotone(all, i + 1, |all|);
    PathWithinOrLater(all, k + LeavesBefore(all, i), i);
  }

  lemma OneOfRest(all: seq<Section>, i: nat, rest: seq<Path>, k: nat)
    requires i < |all| && ListsFrom(all, i + 1, rest) && k < |rest|
    ensures k + LeavesBefore(all, i + 1) < LeavesBefore(all, |all|)
    ensures PathWithin(all, k + LeavesBefore(all, i + 1), i) == rest[k]
  {
    PathWithinOrLater(all, k + LeavesBefore(all, i + 1), i);
  }

  lemma PathWithinOrLater(ss: seq<Section>, n: nat, i: nat)
    requires i < |ss| && LeavesBefore(ss, i) <= n < LeavesBefore(ss, |ss|)
    ensures n < LeavesBefore(ss, i + 1) ==> PathWithin(ss, n, i) == PathTo(ss[i], n - LeavesBefore(ss, i))
    ensures n >= LeavesBefore(ss, i + 1) ==> i + 1 < |ss| && PathWithin(ss, n, i) == PathWithin(ss, n, i + 1)
  {
  }

  /** The list holds exactly the paths that lead to leaves. */
  lemma {:induction false} LeafPathsAreAllPaths(s: Section, p: Path)
    ensures p in LeafPaths(s) <==> IsLeafPath(s, p)
    decreases s, 1
  {
    if s.kids == [] {
      if IsLeafPath(s, p) {
        assert p == [s.id];
      }
    } else if p != [] {
      var ps := LeafPathsOf(s.kids);
      LeafPathsOfAreAllPaths(s.kids, p[1..]);
      if p in LeafPaths(s) {
        var i :| 0 <= i < |ps| && LeafPaths(s)[i] == p;
        assert p[1..] == ps[i];
      }
      if IsLeafPath(s, p) {
        var i :| 0 <= i < |ps| && ps[i] == p[1..];
        assert LeafPaths(s)[i] == p;
      }
    }
  }

  lemma {:induction false} LeafPathsOfAreAllPaths(ss: seq<Section>, p: Path)
    ensures p in LeafPathsOf(ss) <==> exists i :: 0 <= i < |ss| && IsLeafPath(ss[i], p)
    decreases ss, 0
  {
    if ss != [] {
      LeafPathsAreAllPaths(ss[0], p);
      LeafPathsOfAreAllPaths(ss[1..], p);
      if i :| 0 <= i < |ss| && IsLeafPath(ss[i], p) {
        assert i > 0 ==> ss[1..][i - 1] == ss[i];
      }
    }
  }

  /** With distinct siblings, no two leaves share a path, so running each path once runs each leaf once. */
  lemma {:induction false} PathsDistinct(s: Section, j: nat, k: nat)
    requires DistinctSiblings(s) && j < k < Leaves(s)
    ensures PathTo(s, j) != PathTo(s, k)
    decreases s
  {
    var c, d := ChildWith(s.kids, j, 0), ChildWith(s.kids, k, 0);
    var p, q := PathWithin(s.kids, j, 0), PathWithin(s.kids, k, 0);
    if c == d {
      PathsDistinct(s.kids[c], j - LeavesBefore(s.kids, c), k - LeavesBefore(s.kids, c));
    } else {
      assert p[0] != q[0];
    }
    assert PathTo(s, j)[1..] == p && PathTo(s, k)[1..] == q;
  }
}
