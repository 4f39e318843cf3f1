/**
 The cycles of one pass over a test in which some leaves throw. A section that throws fails, and marks the
 section around it as needing another run; the sections further out are closed as the exception passes.
 Here the trackers are values, one tree for the sections: child number i is the tracker of section number
 i, as it is where siblings are distinct. Proved for every set of leaves that throw: the loop ends, no
 tracker is closed in an illogical state, every leaf is entered exactly once and in order, and there is one
 cycle without a leaf for each section whose last section is a leaf that throws.
 */
module FailingSections {
  import opened Wrappers
  import opened TestSections
  import opened SectionTracker

  // ---------- The trackers ----------

  datatype Tree = Tree(state: CycleState, kids: seq<Tree>)

  const UNMET: Tree := Tree(NotStarted, [])

  predicate IsComplete(t: Tree) {
    t.state == CompletedSuccessfully || t.state == Failed
  }

  /** TrackerBase::close; None is the "Illogical state". */
  function Close(t: Tree): Option<Tree> {
    match t.state
    case NotStarted => None
    case CompletedSuccessfully => None
    case Failed => None
    case NeedsAnotherRun => Some(t)
    case Executing => Some(t.(state := CompletedSuccessfully))
    case ExecutingChildren =>
      Some(if t.kids == [] || IsComplete(t.kids[|t.kids| - 1]) then t.(state := CompletedSuccessfully) else t)
  }

  // ---------- One cycle ----------

  /** How a body ends: its tracker, whether it threw, and the number of the leaf that was entered. */
  datatype Outcome = Outcome(t: Tree, threw: bool, leaf: Option<nat>) | Illogical

  /** The body of a section, the first leaf of which is number base, under its tracker, which is open. */
  function Body(s: Section, t: Tree, base: nat, throws: set<nat>): Outcome
    decreases s, 1, 0
  {
    if s.kids == [] then Outcome(t, base in throws, Some(base)) else Statements(s, t, 0, false, base, throws)
  }

  /** The sections of a body from number i on; whether the cycle has been completed by then. */
  function Statements(s: Section, t: Tree, i: nat, completed: bool, base: nat, throws: set<nat>): Outcome
    requires i <= |s.kids| && i <= |t.kids|
    decreases s, 0, |s.kids| - i, 1
  {
    if i == |s.kids| then Outcome(t, false, None)
    else
      var met := Met(t, i);
      if completed || IsComplete(met.kids[i]) then Statements(s, met, i + 1, completed, base, throws)
      else
        var r := Body(s.kids[i], met.kids[i].(state := Executing), base + LeavesBefore(s.kids, i), throws);
        if r.Illogical? then Illogical else AfterKid(s, met, i, r, base, throws)
  }

  /** The rest of a body whose section number i has been run. */
  function AfterKid(s: Section, met: Tree, i: nat, r: Outcome, base: nat, throws: set<nat>): Outcome
    requires i < |s.kids| && i < |met.kids| && r.Outcome?
    decreases s, 0, |s.kids| - i, 0
  {
    if r.threw && s.kids[i].kids == [] then
      // fail(), which marks the parent
      Outcome(Tree(NeedsAnotherRun, met.kids[i := r.t.(state := Failed)]), true, r.leaf)
    else
      var closed := Close(r.t);
      if closed.None? then Illogical
      else
        var now := Tree(ExecutingChildren, met.kids[i := closed.value]);
        if r.threw then Outcome(now, true, r.leaf)
        else
          var rest := Statements(s, now, i + 1, true, base, throws);
          if rest.Illogical? then Illogical else Outcome(rest.t, rest.threw, r.leaf)
  }

  /** Section number i has been met: it has a tracker. */
  function Met(t: Tree, i: nat): (met: Tree)
    requires i <= |t.kids|
    ensures i < |met.kids|
  {
    if i < |t.kids| then t else t.(kids := t.kids + [UNMET])
  }

  /** A cycle of the test case: its tracker afterwards, and the leaf that was entered. */
  function Cycle(test: Section, t: Tree, throws: set<nat>): Option<(Tree, Option<nat>)> {
    var r := Body(test, t.(state := Executing), 0, throws);
    if r.Illogical? then None
    else
      var closed := Close(r.t);
      if closed.None? then None else Some((closed.value, r.leaf))
  }

  // ---------- What the cycles enter ----------

  /** The last section of this one is a leaf, and throws. */
  predicate LastThrows(s: Section, base: nat, throws: set<nat>) {
    s.kids != [] && s.kids[|s.kids| - 1].kids == [] && base + LeavesBefore(s.kids, |s.kids| - 1) in throws
  }

  /** The leaves entered by one visit after the other, and None for a visit that enters none. */
  function Log(s: Section, base: nat, throws: set<nat>): (log: seq<Option<nat>>)
    ensures |log| >= 1
    decreases s, 1
  {
    if s.kids == [] then [Some(base)]
    else LogBefore(s.kids, |s.kids|, base, throws) + if LastThrows(s, base, throws) then [None] else []
  }

  function LogBefore(ss: seq<Section>, i: nat, base: nat, throws: set<nat>): (log: seq<Option<nat>>)
    requires i <= |ss|
    ensures |log| >= i
    decreases ss, i
  {
    if i == 0 then []
    else LogBefore(ss, i - 1, base, throws) + Log(ss[i - 1], base + LeavesBefore(ss, i - 1), throws)
  }

  /** How many visits the sections before number i need. */
  function Before(ss: seq<Section>, i: nat, base: nat, throws: set<nat>): (n: nat)
    requires i <= |ss|
  {
    |LogBefore(ss, i, base, throws)|
  }

  /** How many visits section number i needs. */
  function Need(ss: seq<Section>, i: nat, base: nat, throws: set<nat>): (n: nat)
    requires i < |ss|
    ensures n >= 1
  {
    |Log(ss[i], base + LeavesBefore(ss, i), throws)|
  }

  lemma BeforeNext(ss: seq<Section>, i: nat, base: nat, throws: set<nat>)
    requires i < |ss|
    ensures Before(ss, i + 1, base, throws) == Before(ss, i, base, throws) + Need(ss, i, base, throws)
  {
  }

  lemma {:induction false} BeforeMonotone(ss: seq<Section>, i: nat, j: nat, base: nat, throws: set<nat>)
    requires i <= j <= |ss|
    ensures Before(ss, i, base, throws) + (j - i) <= Before(ss, j, base, throws)
    decreases j
  {
    if i < j {
      BeforeMonotone(ss, i, j - 1, base, throws);
      BeforeNext(ss, j - 1, base, throws);
    }
  }

  lemma {:induction false} LogGrows(ss: seq<Section>, i: nat, j: nat, base: nat, throws: set<nat>)
    requires i <= j <= |ss|
    ensures LogBefore(ss, i, base, throws) <= LogBefore(ss, j, base, throws)
    decreases j
  {
    if i < j {
      LogGrows(ss, i, j - 1, base, throws);
    }
  }

  /** How many of the first n visits went to section number i. */
  function Visits(ss: seq<Section>, i: nat, n: nat, base: nat, throws: set<nat>): (v: nat)
    requires i < |ss|
    ensures v <= Need(ss, i, base, throws)
  {
    var before := Before(ss, i, base, throws);
    if n <= before then 0 else if n - before >= Need(ss, i, base, throws) then Need(ss, i, base, throws) else n - before
  }

  // ---------- What the trackers remember ----------

  /** The tracker of a section, between cycles, after n visits. */
  ghost predicate Remembers(s: Section, t: Tree, n: nat, base: nat, throws: set<nat>)
    decreases s, 0
  {
    var all := |Log(s, base, throws)|;
    && n <= all
    && (n == 0 ==> t == UNMET)
    && (0 < n < all ==> t.state == ExecutingChildren || t.state == NeedsAnotherRun)
    && (n == all ==> IsComplete(t) && (s.kids != [] ==> t.state == CompletedSuccessfully))
    && KidsRemember(s.kids, t.kids, n, base, throws)
  }

  ghost predicate KidsRemember(ss: seq<Section>, ts: seq<Tree>, n: nat, base: nat, throws: set<nat>)
    decreases ss, 1
  {
    && |ts| <= |ss|
    && forall j {:trigger KidRemembers(ss, ts, j, n, base, throws)} :: 0 <= j < |ss| ==>
         KidRemembers(ss, ts, j, n, base, throws)
  }

  ghost predicate KidRemembers(ss: seq<Section>, ts: seq<Tree>, j: nat, n: nat, base: nat, throws: set<nat>)
    requires j < |ss|
    decreases ss, 0
  {
    if j < |ts| then Remembers(ss[j], ts[j], Visits(ss, j, n, base, throws), base + LeavesBefore(ss, j), throws)
    else n <= Before(ss, j, base, throws)
  }

  lemma CompleteAfterAll(s: Section, t: Tree, n: nat, base: nat, throws: set<nat>)
    requires Remembers(s, t, n, base, throws)
    ensures n <= |Log(s, base, throws)|
    ensures IsComplete(t) <==> n == |Log(s, base, throws)|
  {
  }

  lemma UnmetRemembers(s: Section, base: nat, throws: set<nat>)
    ensures Remembers(s, UNMET, 0, base, throws)
  {
    forall j | 0 <= j < |s.kids|
      ensures KidRemembers(s.kids, [], j, 0, base, throws)
    {
    }
  }

  lemma MetRemembers(ss: seq<Section>, ts: seq<Tree>, n: nat, base: nat, throws: set<nat>)
    requires KidsRemember(ss, ts, n, base, throws) && |ts| < |ss|
    ensures KidsRemember(ss, ts + [UNMET], n, base, throws)
  {
    forall j | 0 <= j < |ss|
      ensures KidRemembers(ss, ts + [UNMET], j, n, base, throws)
    {
      assert KidRemembers(ss, ts, j, n, base, throws);
      UnmetRemembers(ss[j], base + LeavesBefore(ss, j), throws);
    }
  }

  /** A visit to section c changes what its tracker remembers, and that of no other. */
  lemma VisitedRemembers(ss: seq<Section>, ts: seq<Tree>, c: nat, kid: Tree, n: nat, base: nat, throws: set<nat>)
    requires KidsRemember(ss, ts, n, base, throws) && c < |ts|
    requires Before(ss, c, base, throws) <= n < Before(ss, c + 1, base, throws)
    requires Remembers(ss[c], kid, Visits(ss, c, n, base, throws) + 1, base + LeavesBefore(ss, c), throws)
    ensures KidsRemember(ss, ts[c := kid], n + 1, base, throws)
  {
    var now, next := ts[c := kid], n + 1;
    forall j | 0 <= j < |ss|
      ensures KidRemembers(ss, now, j, next, base, throws)
    {
      assert KidRemembers(ss, ts, j, n, base, throws);
      OneMoreVisit(ss, c, j, n, base, throws);
    }
    assert KidsRemember(ss, now, next, base, throws);
  }

  lemma OneMoreVisit(ss: seq<Section>, c: nat, j: nat, n: nat, base: nat, throws: set<nat>)
    requires c < |ss| && j < |ss|
    requires Before(ss, c, base, throws) <= n < Before(ss, c + 1, base, throws)
    ensures j != c ==> Visits(ss, j, n + 1, base, throws) == Visits(ss, j, n, base, throws)
    ensures j == c ==> Visits(ss, j, n + 1, base, throws) == Visits(ss, j, n, base, throws) + 1
    ensures j > c ==> n + 1 <= Before(ss, j, base, throws) && Visits(ss, j, n + 1, base, throws) == 0
    ensures j < c ==> Visits(ss, j, n, base, throws) == Need(ss, j, base, throws)
  {
    BeforeNext(ss, j, base, throws);
    BeforeNext(ss, c, base, throws);
    if j < c {
      BeforeMonotone(ss, j + 1, c, base, throws);
    } else if j > c {
      BeforeMonotone(ss, c + 1, j, base, throws);
    }
  }

  /** Once all sections have had their visits, another one changes nothing. */
  lemma AllVisited(ss: seq<Section>, ts: seq<Tree>, n: nat, base: nat, throws: set<nat>)
    requires KidsRemember(ss, ts, n, base, throws) && |ts| == |ss| && n >= Before(ss, |ss|, base, throws)
    ensures KidsRemember(ss, ts, n + 1, base, throws)
  {
    var next := n + 1;
    forall j | 0 <= j < |ss|
      ensures KidRemembers(ss, ts, j, next, base, throws)
    {
      assert KidRemembers(ss, ts, j, n, base, throws);
      BeforeNext(ss, j, base, throws);
      BeforeMonotone(ss, j + 1, |ss|, base, throws);
    }
    assert KidsRemember(ss, ts, next, base, throws);
  }

  // ---------- A cycle, proved ----------

  /** What a body comes to that is run for visit number n. */
  ghost predicate RanVisit(s: Section, r: Outcome, n: nat, base: nat, throws: set<nat>)
    requires n < |Log(s, base, throws)|
  {
    && r.Outcome? && r.leaf == Log(s, base, throws)[n]
    && (r.threw <==> r.leaf.Some? && r.leaf.value in throws)
    && (if s.kids == [] then r.t == Tree(Executing, [])
        else Close(r.t).Some? && Remembers(s, Close(r.t).value, n + 1, base, throws)
             && (r.threw ==> n + 1 < |Log(s, base, throws)|))
  }

  lemma {:induction false} BodyRuns(s: Section, t: Tree, n: nat, base: nat, throws: set<nat>)
    requires Remembers(s, t, n, base, throws) && n < |Log(s, base, throws)|
    ensures RanVisit(s, Body(s, t.(state := Executing), base, throws), n, base, throws)
    decreases s, 1, 0
  {
    if s.kids != [] {
      StatementsRun(s, t.(state := Executing), 0, n, base, throws);
    }
  }

  /** From section number i on, where those before have had their visits. */
  lemma {:induction false} StatementsRun(s: Section, t: Tree, i: nat, n: nat, base: nat, throws: set<nat>)
    requires s.kids != [] && i <= |s.kids| && i <= |t.kids| && t.state == Executing
    requires KidsRemember(s.kids, t.kids, n, base, throws) && n < |Log(s, base, throws)|
    requires Before(s.kids, i, base, throws) <= n
    ensures RanVisit(s, Statements(s, t, i, false, base, throws), n, base, throws)
    decreases s, 0, |s.kids| - i, 1
  {
    if i == |s.kids| {
      AllPassed(s, t, n, base, throws);
    } else {
      var met := Met(t, i);
      if i == |t.kids| {
        MetRemembers(s.kids, t.kids, n, base, throws);
      }
      CompleteIff(s.kids, met.kids, i, n, base, throws);
      if IsComplete(met.kids[i]) {
        StatementsRun(s, met, i + 1, n, base, throws);
      } else {
        KidNext(s, met, i, n, base, throws);
      }
    }
  }

  /** The section that is next runs. */
  lemma {:induction false} KidNext(s: Section, met: Tree, i: nat, n: nat, base: nat, throws: set<nat>)
    requires i < |s.kids| && i < |met.kids| && !IsComplete(met.kids[i])
    requires KidsRemember(s.kids, met.kids, n, base, throws) && n < |Log(s, base, throws)|
    requires Before(s.kids, i, base, throws) <= n
    ensures var r := Body(s.kids[i], met.kids[i].(state := Executing), base + LeavesBefore(s.kids, i), throws);
            r.Outcome? && RanVisit(s, AfterKid(s, met, i, r, base, throws), n, base, throws)
    decreases s, 0, |s.kids| - i, 0
  {
    var v, at := Visits(s.kids, i, n, base, throws), base + LeavesBefore(s.kids, i);
    CompleteIff(s.kids, met.kids, i, n, base, throws);
    BodyRuns(s.kids[i], met.kids[i], v, at, throws);
    KidRuns(s, met, i, Body(s.kids[i], met.kids[i].(state := Executing), at, throws), v, n, base, throws);
  }

  /** A visit that finds all sections complete completes the one around them. */
  lemma AllPassed(s: Section, t: Tree, n: nat, base: nat, throws: set<nat>)
    requires s.kids != [] && |t.kids| >= |s.kids| && t.state == Executing
    requires KidsRemember(s.kids, t.kids, n, base, throws)
    requires Before(s.kids, |s.kids|, base, throws) <= n < |Log(s, base, throws)|
    ensures RanVisit(s, Outcome(t, false, None), n, base, throws)
  {
    LogLength(s, base, throws);
    AllVisited(s.kids, t.kids, n, base, throws);
    RemembersIf(s, t.(state := CompletedSuccessfully), n + 1, base, throws);
  }

  /** The tracker of a section that is next is complete exactly if the section has had its visits. */
  lemma CompleteIff(ss: seq<Section>, ts: seq<Tree>, i: nat, n: nat, base: nat, throws: set<nat>)
    requires KidsRemember(ss, ts, n, base, throws) && i < |ts| && Before(ss, i, base, throws) <= n
    ensures IsComplete(ts[i]) <==> Before(ss, i + 1, base, throws) <= n
    ensures !IsComplete(ts[i]) ==> Visits(ss, i, n, base, throws) == n - Before(ss, i, base, throws)
    ensures Remembers(ss[i], ts[i], Visits(ss, i, n, base, throws), base + LeavesBefore(ss, i), throws)
  {
    assert KidRemembers(ss, ts, i, n, base, throws);
    BeforeNext(ss, i, base, throws);
    CompleteAfterAll(ss[i], ts[i], Visits(ss, i, n, base, throws), base + LeavesBefore(ss, i), throws);
  }

  /** The section that is next has run for its visit number v: the statements behind it. */
  lemma KidRuns(s: Section, met: Tree, i: nat, r: Outcome, v: nat, n: nat, base: nat, throws: set<nat>)
    requires i < |s.kids| && i < |met.kids|
    requires KidsRemember(s.kids, met.kids, n, base, throws) && n < |Log(s, base, throws)|
    requires Before(s.kids, i, base, throws) <= n < Before(s.kids, i + 1, base, throws)
    requires v == n - Before(s.kids, i, base, throws) == Visits(s.kids, i, n, base, throws)
    requires v < |Log(s.kids[i], base + LeavesBefore(s.kids, i), throws)|
    requires RanVisit(s.kids[i], r, v, base + LeavesBefore(s.kids, i), throws)
    ensures RanVisit(s, AfterKid(s, met, i, r, base, throws), n, base, throws)
  {
    var at := base + LeavesBefore(s.kids, i);
    var kid := s.kids[i];
    LogAt(s, i, n, base, throws);
    if kid.kids == [] && r.threw {
      LeafFails(s, met, i, n, base, throws);
    } else {
      if kid.kids == [] {
        LeafRemembers(kid, Close(r.t).value, at, throws);
      }
      var closed := Close(r.t).value;
      VisitedRemembers(s.kids, met.kids, i, closed, n, base, throws);
      var now := Tree(ExecutingChildren, met.kids[i := closed]);
      if r.threw {
        EndsEarly(s, now, i, n + 1, base, throws);
      } else {
        EndsWell(s, now, i, n, base, throws);
      }
    }
  }

  /** A leaf throws: the section around it needs another run. */
  lemma LeafFails(s: Section, met: Tree, i: nat, n: nat, base: nat, throws: set<nat>)
    requires i < |s.kids| && i < |met.kids| && KidsRemember(s.kids, met.kids, n, base, throws)
    requires Before(s.kids, i, base, throws) <= n < Before(s.kids, i + 1, base, throws)
    requires s.kids[i].kids == [] && base + LeavesBefore(s.kids, i) in throws
    requires n - Before(s.kids, i, base, throws) == Visits(s.kids, i, n, base, throws)
    ensures n + 1 < |Log(s, base, throws)|
    ensures Remembers(s, Tree(NeedsAnotherRun, met.kids[i := Tree(Failed, [])]), n + 1, base, throws)
  {
    var at, failed := base + LeavesBefore(s.kids, i), Tree(Failed, []);
    BeforeNext(s.kids, i, base, throws);
    LeafRemembers(s.kids[i], failed, at, throws);
    VisitedRemembers(s.kids, met.kids, i, failed, n, base, throws);
    ThrownLeafIsNotAll(s, i, n, base, throws);
    RemembersIf(s, Tree(NeedsAnotherRun, met.kids[i := failed]), n + 1, base, throws);
  }

  /** A section ends early because of one inside it: so does the section around it. */
  lemma EndsEarly(s: Section, now: Tree, i: nat, n: nat, base: nat, throws: set<nat>)
    requires i < |now.kids| <= |s.kids| && now.state == ExecutingChildren && n > 0
    requires KidsRemember(s.kids, now.kids, n, base, throws) && n < Before(s.kids, i + 1, base, throws)
    ensures n < |Log(s, base, throws)| && Close(now) == Some(now) && Remembers(s, now, n, base, throws)
  {
    LogLength(s, base, throws);
    BeforeMonotone(s.kids, i + 1, |s.kids|, base, throws);
    ThrownIsNotAll(s.kids, now.kids, i, n, base, throws);
    RemembersIf(s, now, n, base, throws);
  }

  /** A section ends well: the rest is met, and the section around it is closed. */
  lemma EndsWell(s: Section, now: Tree, i: nat, n: nat, base: nat, throws: set<nat>)
    requires i < |s.kids| && i < |now.kids| && now.state == ExecutingChildren
    requires KidsRemember(s.kids, now.kids, n + 1, base, throws)
    requires !(s.kids[i].kids == [] && base + LeavesBefore(s.kids, i) in throws)
    requires Before(s.kids, i, base, throws) <= n < Before(s.kids, i + 1, base, throws)
    ensures var rest := Statements(s, now, i + 1, true, base, throws);
            && rest.Outcome? && !rest.threw
            && Close(rest.t).Some? && Remembers(s, Close(rest.t).value, n + 1, base, throws)
  {
    RestIsPassed(s, now, i + 1, n + 1, base, throws);
    AllIfNoThrow(s, i, n, base, throws);
    ClosedAfterVisit(s, Statements(s, now, i + 1, true, base, throws).t, n + 1, base, throws);
  }

  lemma LeafRemembers(s: Section, t: Tree, base: nat, throws: set<nat>)
    requires s.kids == [] && t.kids == [] && IsComplete(t)
    ensures Remembers(s, t, 1, base, throws)
  {
  }

  lemma LogLength(s: Section, base: nat, throws: set<nat>)
    requires s.kids != []
    ensures |Log(s, base, throws)|
         == Before(s.kids, |s.kids|, base, throws) + if LastThrows(s, base, throws) then 1 else 0
  {
  }

  /** Visit number n of the whole goes to section number i. */
  lemma LogAt(s: Section, i: nat, n: nat, base: nat, throws: set<nat>)
    requires i < |s.kids| && Before(s.kids, i, base, throws) <= n < Before(s.kids, i + 1, base, throws)
    ensures n < |Log(s, base, throws)|
    ensures Log(s, base, throws)[n]
         == Log(s.kids[i], base + LeavesBefore(s.kids, i), throws)[n - Before(s.kids, i, base, throws)]
  {
    var before, with, all := LogBefore(s.kids, i, base, throws), LogBefore(s.kids, i + 1, base, throws),
                             LogBefore(s.kids, |s.kids|, base, throws);
    LogNext(s.kids, i, base, throws);
    LogGrows(s.kids, i + 1, |s.kids|, base, throws);
    KidsLogFirst(s, base, throws);
    InMiddle(before, Log(s.kids[i], base + LeavesBefore(s.kids, i), throws), with, all, Log(s, base, throws), n);
  }

  lemma LogNext(ss: seq<Section>, i: nat, base: nat, throws: set<nat>)
    requires i < |ss|
    ensures LogBefore(ss, i + 1, base, throws)
         == LogBefore(ss, i, base, throws) + Log(ss[i], base + LeavesBefore(ss, i), throws)
  {
  }

  lemma KidsLogFirst(s: Section, base: nat, throws: set<nat>)
    requires s.kids != []
    ensures LogBefore(s.kids, |s.kids|, base, throws) <= Log(s, base, throws)
  {
  }

  lemma InMiddle<T>(x: seq<T>, y: seq<T>, both: seq<T>, more: seq<T>, all: seq<T>, n: nat)
    requires both == x + y && both <= more && more <= all && |x| <= n < |both|
    ensures |both| <= |all| && all[n] == y[n - |x|]
  {
    assert both[n] == y[n - |x|];
  }

  /** After a leaf has thrown there is another visit to come. */
  lemma ThrownLeafIsNotAll(s: Section, i: nat, n: nat, base: nat, throws: set<nat>)
    requires i < |s.kids| && s.kids[i].kids == [] && base + LeavesBefore(s.kids, i) in throws
    requires Before(s.kids, i, base, throws) <= n < Before(s.kids, i + 1, base, throws)
    ensures n + 1 < |Log(s, base, throws)|
  {
    BeforeNext(s.kids, i, base, throws);
    BeforeMonotone(s.kids, i + 1, |s.kids|, base, throws);
  }

  /** The section around one that ended early stays incomplete. */
  lemma ThrownIsNotAll(ss: seq<Section>, ts: seq<Tree>, i: nat, n: nat, base: nat, throws: set<nat>)
    requires i < |ts| <= |ss| && KidsRemember(ss, ts, n, base, throws) && n < Before(ss, i + 1, base, throws)
    ensures !IsComplete(ts[|ts| - 1])
  {
    BeforeMonotone(ss, i + 1, |ts|, base, throws);
    NotYetComplete(ss, ts, |ts| - 1, n, base, throws);
  }

  lemma NotYetComplete(ss: seq<Section>, ts: seq<Tree>, j: nat, n: nat, base: nat, throws: set<nat>)
    requires KidsRemember(ss, ts, n, base, throws) && j < |ts| && n < Before(ss, j + 1, base, throws)
    ensures !IsComplete(ts[j])
  {
    assert KidRemembers(ss, ts, j, n, base, throws);
    BeforeNext(ss, j, base, throws);
    CompleteAfterAll(ss[j], ts[j], Visits(ss, j, n, base, throws), base + LeavesBefore(ss, j), throws);
  }

  /** Once the cycle is completed, the other sections are only met. */
  lemma {:induction false} RestIsPassed(s: Section, t: Tree, i: nat, n: nat, base: nat, throws: set<nat>)
    requires i <= |s.kids| && i <= |t.kids| && KidsRemember(s.kids, t.kids, n, base, throws)
    ensures var rest := Statements(s, t, i, true, base, throws);
            && rest.Outcome? && !rest.threw && rest.t.state == t.state
            && |rest.t.kids| == |s.kids| && KidsRemember(s.kids, rest.t.kids, n, base, throws)
    decreases |s.kids| - i
  {
    if i < |s.kids| {
      if i == |t.kids| {
        MetRemembers(s.kids, t.kids, n, base, throws);
      }
      RestIsPassed(s, Met(t, i), i + 1, n, base, throws);
    }
  }

  /** Behind a visit that does not throw, all visits have been made if all sections have had theirs. */
  lemma AllIfNoThrow(s: Section, i: nat, n: nat, base: nat, throws: set<nat>)
    requires i < |s.kids| && !(s.kids[i].kids == [] && base + LeavesBefore(s.kids, i) in throws)
    requires Before(s.kids, i, base, throws) <= n < Before(s.kids, i + 1, base, throws)
    ensures n + 1 <= Before(s.kids, |s.kids|, base, throws) <= |Log(s, base, throws)|
    ensures n + 1 == Before(s.kids, |s.kids|, base, throws) ==> n + 1 == |Log(s, base, throws)|
  {
    LogLength(s, base, throws);
    BeforeMonotone(s.kids, i + 1, |s.kids|, base, throws);
  }

  lemma RemembersIf(s: Section, t: Tree, n: nat, base: nat, throws: set<nat>)
    requires 0 < n <= |Log(s, base, throws)| && KidsRemember(s.kids, t.kids, n, base, throws)
    requires n < |Log(s, base, throws)| ==> t.state == ExecutingChildren || t.state == NeedsAnotherRun
    requires n == |Log(s, base, throws)| ==> t.state == CompletedSuccessfully
    ensures Remembers(s, t, n, base, throws)
  {
  }

  /** A section in which a visit went well is complete exactly if that was the last one. */
  lemma ClosedAfterVisit(s: Section, t: Tree, n: nat, base: nat, throws: set<nat>)
    requires s.kids != [] && t.state == ExecutingChildren && |t.kids| == |s.kids|
    requires KidsRemember(s.kids, t.kids, n, base, throws)
    requires 0 < n <= Before(s.kids, |s.kids|, base, throws) <= |Log(s, base, throws)|
    requires n == Before(s.kids, |s.kids|, base, throws) ==> n == |Log(s, base, throws)|
    ensures Close(t).Some? && Remembers(s, Close(t).value, n, base, throws)
  {
    var last := |s.kids| - 1;
    BeforeMonotone(s.kids, last, |s.kids|, base, throws);
    if n < Before(s.kids, |s.kids|, base, throws) {
      NotYetComplete(s.kids, t.kids, last, n, base, throws);
    } else {
      CompleteIff(s.kids, t.kids, last, n, base, throws);
    }
    RemembersIf(s, Close(t).value, n, base, throws);
  }

  // ---------- Whole passes ----------

  /**
   The cycles of one pass, until the tracker of the test case is successfully completed: what each enters
   is its place in the log.
   */
  method RunPass(test: Section, throws: set<nat>) returns (thrown: bool, log: seq<Option<nat>>)
    ensures !thrown && log == Log(test, 0, throws)
  {
    var t := UNMET;
    thrown, log := false, [];
    UnmetRemembers(test, 0, throws);
    while t.state != CompletedSuccessfully
      invariant |log| <= |Log(test, 0, throws)| && log == Log(test, 0, throws)[..|log|]
      invariant t.state == CompletedSuccessfully <==> |log| == |Log(test, 0, throws)|
      invariant t.state != CompletedSuccessfully ==> Remembers(test, t, |log|, 0, throws)
      decreases |Log(test, 0, throws)| - |log|
    {
      BodyRuns(test, t, |log|, 0, throws);
      var cycle := Cycle(test, t, throws);
      if cycle.None? {
        return true, log;
      }
      t, log := cycle.value.0, log + [cycle.value.1];
    }
  }

  /** The numbers of the leaves in a log. */
  function Entered(log: seq<Option<nat>>): seq<nat> {
    if log == [] then []
    else
      var last := log[|log| - 1];
      Entered(log[..|log| - 1]) + if last.Some? then [last.value] else []
  }

  lemma {:induction false} EnteredConcat(x: seq<Option<nat>>, y: seq<Option<nat>>)
    ensures Entered(x + y) == Entered(x) + Entered(y)
  {
    if y == [] {
      assert x + y == x;
    } else {
      var init, last := y[..|y| - 1], y[|y| - 1];
      EnteredConcat(x, init);
      assert (x + y)[..|x + y| - 1] == x + init;
      Regroup(Entered(x), Entered(init), if last.Some? then [last.value] else []);
    }
  }

  /** So many numbers from one on. */
  function From(base: nat, n: nat): (numbers: seq<nat>)
    ensures |numbers| == n && forall i :: 0 <= i < n ==> numbers[i] == base + i
  {
    seq<nat>(n, i requires 0 <= i < n => base + i)
  }

  lemma FromInTwo(base: nat, n: nat, m: nat)
    ensures From(base, n) + From(base + n, m) == From(base, n + m)
  {
  }

  /** Every leaf is entered exactly once, in order, whichever leaves throw. */
  lemma {:induction false} EachLeafOnce(s: Section, base: nat, throws: set<nat>)
    ensures Entered(Log(s, base, throws)) == From(base, Leaves(s))
    decreases s, 1
  {
    if s.kids == [] {
      var log := Log(s, base, throws);
      assert log[..0] == [] && Entered(log) == Entered([]) + [base];
    } else {
      LeavesOnceBefore(s.kids, |s.kids|, base, throws);
      var before, extra: seq<Option<nat>> := LogBefore(s.kids, |s.kids|, base, throws),
                                             if LastThrows(s, base, throws) then [None] else [];
      EnteredConcat(before, extra);
      assert Entered(extra) == [] && Entered(before) + [] == Entered(before);
    }
  }

  lemma {:induction false} LeavesOnceBefore(ss: seq<Section>, i: nat, base: nat, throws: set<nat>)
    requires i <= |ss|
    ensures Entered(LogBefore(ss, i, base, throws)) == From(base, LeavesBefore(ss, i))
    decreases ss, 0, i
  {
    if i > 0 {
      var at := base + LeavesBefore(ss, i - 1);
      LeavesOnceBefore(ss, i - 1, base, throws);
      EachLeafOnce(ss[i - 1], at, throws);
      EnteredConcat(LogBefore(ss, i - 1, base, throws), Log(ss[i - 1], at, throws));
      FromInTwo(base, LeavesBefore(ss, i - 1), Leaves(ss[i - 1]));
    }
  }

  /** How many sections have a last section that is a leaf and throws. */
  function LastThrowCount(s: Section, base: nat, throws: set<nat>): nat
    decreases s, 1
  {
    LastThrowCountBefore(s.kids, |s.kids|, base, throws) + if LastThrows(s, base, throws) then 1 else 0
  }

  function LastThrowCountBefore(ss: seq<Section>, i: nat, base: nat, throws: set<nat>): nat
    requires i <= |ss|
    decreases ss, 0, i
  {
    if i == 0 then 0
    else
      LastThrowCountBefore(ss, i - 1, base, throws) + LastThrowCount(ss[i - 1], base + LeavesBefore(ss, i - 1), throws)
  }

  /** There are as many cycles as leaves, and one more for each of these sections. */
  lemma {:induction false} CycleCount(s: Section, base: nat, throws: set<nat>)
    ensures |Log(s, base, throws)| == Leaves(s) + LastThrowCount(s, base, throws)
    decreases s, 1
  {
    if s.kids != [] {
      CycleCountBefore(s.kids, |s.kids|, base, throws);
    }
  }

  lemma {:induction false} CycleCountBefore(ss: seq<Section>, i: nat, base: nat, throws: set<nat>)
    requires i <= |ss|
    ensures Before(ss, i, base, throws) == LeavesBefore(ss, i) + LastThrowCountBefore(ss, i, base, throws)
    decreases ss, 0, i
  {
    if i > 0 {
      CycleCountBefore(ss, i - 1, base, throws);
      CycleCount(ss[i - 1], base + LeavesBefore(ss, i - 1), throws);
    }
  }

  /** A test of two leaves: one that throws costs a cycle of its own only if it is the last. */
  lemma TwoLeaves(test: Section)
    requires |test.kids| == 2 && test.kids[0].kids == test.kids[1].kids == []
    ensures Log(test, 0, {}) == Log(test, 0, {0}) == [Some(0), Some(1)]
    ensures Log(test, 0, {1}) == Log(test, 0, {0, 1}) == [Some(0), Some(1), None]
  {
    LeavesOfTwo(test);
    LogOfTwo(test, {});
    LogOfTwo(test, {0});
    LogOfTwo(test, {1});
    LogOfTwo(test, {0, 1});
  }

  lemma LeavesOfTwo(test: Section)
    requires |test.kids| == 2 && test.kids[0].kids == test.kids[1].kids == []
    ensures LeavesBefore(test.kids, 0) == 0 && LeavesBefore(test.kids, 1) == 1
  {
  }

  lemma LogOfTwo(test: Section, throws: set<nat>)
    requires |test.kids| == 2 && test.kids[0].kids == test.kids[1].kids == []
    requires LeavesBefore(test.kids, 0) == 0 && LeavesBefore(test.kids, 1) == 1
    ensures Log(test, 0, throws) == [Some(0), Some(1)] + if 1 in throws then [None] else []
  {
    LogNext(test.kids, 0, 0, throws);
    LogNext(test.kids, 1, 0, throws);
    assert LogBefore(test.kids, 2, 0, throws) == [] + [Some(0)] + [Some(1)];
  }
}
