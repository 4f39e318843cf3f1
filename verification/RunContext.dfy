/**
 The run of one test case: the cycle loop calls the test body again and again until the tracker of
 the test case is complete, and the loop around it once for every tuple of generator indices. Proved:
 for every finite tree of sections with distinct siblings the inner loop ends after exactly one cycle
 per leaf, cycle k runs the path to leaf k in depth-first order and nothing else, and no tracker is ever
 closed in an illogical state; the outer loop, from no generator registered, gives every evaluation in
 pass n the index of its generator in tuple n.
 */
module RunContext {
  import opened TestSections
  import opened SectionTracker
  import opened Generators
  import opened Wrappers

  // ---------- What a reporter sees ----------

  datatype Event = Starting(id: NameAndLocation) | Ended(id: NameAndLocation)

  /** Entering the sections of a path one inside the other, then leaving them. */
  function Visit(p: Path): seq<Event> {
    if p == [] then [] else [Starting(p[0])] + Visit(p[1..]) + [Ended(p[0])]
  }

  function Visits(ps: seq<Path>): seq<Event> {
    if ps == [] then [] else Visits(ps[..|ps| - 1]) + Visit(ps[|ps| - 1])
  }

  function Times(n: nat, events: seq<Event>): seq<Event> {
    if n == 0 then [] else Times(n - 1, events) + events
  }

  lemma OnceMore(before: seq<Event>, n: nat, events: seq<Event>)
    ensures before + Times(n, events) + events == before + Times(n + 1, events)
  {
  }

  lemma VisitNext(before: seq<Event>, ps: seq<Path>, k: nat)
    requires k < |ps|
    ensures before + Visits(ps[..k]) + Visit(ps[k]) == before + Visits(ps[..k + 1])
  {
    assert ps[..k + 1][..k] == ps[..k];
  }

  // ---------- What the trackers remember ----------

  /** The state of a tracker after k of the leaves of its section have been run. */
  function StateAfter(s: Section, k: nat): CycleState {
    if k == 0 then NotStarted else if k >= Leaves(s) then CompletedSuccessfully else ExecutingChildren
  }

  /** The children stand for the first kids of the section, with so many leaves of each run. */
  ghost predicate Kids(t: Tracker, ns: seq<nat>)
    reads t`children, t.children`done
  {
    var kids := t.section.kids;
    && |t.children| == |ns| <= |kids|
    && forall j :: 0 <= j < |ns| ==>
      t.children[j].section == kids[j] && t.children[j].id == kids[j].id && t.children[j].done == ns[j]
  }

  /** The children a tracker has once statement i of its body has been reached. */
  function Known(t: Section, k: nat, i: nat): nat {
    if k == 0 then i else |t.kids|
  }

  /** The children agree that `done` leaves have been run. */
  ghost predicate Counted(t: Tracker)
    reads t`children, t`done, t.children`done
  {
    var s := t.section;
    t.id == s.id && t.done <= Leaves(s) && Kids(t, Shares(s.kids, t.done, 0, Known(s, t.done, 0)))
  }

  /** A tracker that is not executing: its state and its children say that `done` leaves have been run. */
  ghost predicate Settled(t: Tracker)
    reads t`children, t`runState, t`done, t.children`done
  {
    Counted(t) && t.runState == StateAfter(t.section, t.done)
  }

  /**
   A tracker inside the body of its section, before statement number i: `done` leaves were run by
   earlier cycles, and the sections before statement i have had their turn in this one.
   */
  ghost predicate Within(t: Tracker, i: nat)
    reads t`children, t`runState, t`done, t.children`done
  {
    var s := t.section;
    && t.id == s.id && i <= |s.kids| && t.done < Leaves(s)
    && t.runState == (if LeavesBefore(s.kids, i) > t.done then ExecutingChildren else Executing)
    && Kids(t, Shares(s.kids, t.done, i, Known(s, t.done, i)))
  }

  ghost predicate OnlyChildAt(t: Tracker, i: nat, c: Tracker)
    reads t`children
  {
    i < |t.children| && t.children[i] == c && forall j :: 0 <= j < |t.children| && j != i ==> t.children[j] != c
  }

  /** As `Within`, while section i itself executes, under tracker c. */
  ghost predicate Around(t: Tracker, i: nat, c: Tracker)
    reads t`children, t`runState, t`done, t.children`done
  {
    var s := t.section;
    && t.id == s.id && i < |s.kids| && t.done < Leaves(s)
    && t.runState == ExecutingChildren
    && Kids(t, Shares(s.kids, t.done, i, Known(s, t.done, i + 1)))
    && OnlyChildAt(t, i, c)
  }

  /** Leaf number k is in section i. */
  predicate Turn(ss: seq<Section>, k: nat, i: nat)
    requires i < |ss|
  {
    LeavesBefore(ss, i) <= k < LeavesBefore(ss, i + 1)
  }

  class RunContext {
    const trackerContext: TrackerContext
    var activeSections: seq<Tracker>
    var reported: seq<Event>

    constructor ()
      ensures fresh(trackerContext) && activeSections == [] && reported == []
    {
      trackerContext := new TrackerContext();
      activeSections, reported := [], [];
    }

    /** Every tracker off the line from t to the root is at rest. */
    ghost predicate SettledBut(t: Tracker)
      requires trackerContext.Linked()
      reads trackerContext`trackers, trackerContext.trackers`children
      reads trackerContext.trackers`runState, trackerContext.trackers`done
    {
      forall x {:trigger Settled(x)} :: x in trackerContext.trackers && x != t && x !in t.above ==> Settled(x)
    }

    /** Tracker t executes, before statement i of its body. */
    ghost predicate Inside(t: Tracker, i: nat)
      reads *
    {
      forall key {:trigger Look(key)} :: Look(key) ==> Executes(t, i)
    }

    ghost predicate Executes(t: Tracker, i: nat)
      reads trackerContext, trackerContext.trackers, t, t.above, t.children
    {
      var tc := trackerContext;
      && tc.Linked() && tc.currentTracker == t && t in tc.trackers && t.parent != null && t.UnderExecuting()
      && Within(t, i) && SettledBut(t)
      && (tc.HasCompletedCycle() <==> LeavesBefore(t.section.kids, i) > t.done)
    }

    /** The tracker c of a section just met, and everything around it, but for the state of t, which executes. */
    ghost predicate Met(t: Tracker, i: nat, c: Tracker, ns: seq<nat>)
      reads trackerContext, trackerContext.trackers, t, t.above, t.children, c, c.children
    {
      var s := t.section;
      && trackerContext.Linked() && c in trackerContext.trackers && t in trackerContext.trackers
      && t.parent != null && t.UnderExecuting() && c.parent == t
      && i < |s.kids| && Kids(t, ns) && OnlyChildAt(t, i, c)
      && Counted(c)
      && forall x {:trigger Settled(x)} ::
           x in trackerContext.trackers && x != t && x !in t.above && x != c ==> Settled(x)
    }

    /** What acquiring a section does to the trackers, whatever their counts mean. */
    method AcquireKid(id: NameAndLocation, ghost t: Tracker, ghost i: nat, ghost ns: seq<nat>, ghost ns': seq<nat>)
      returns (section: Tracker)
      requires i < |t.section.kids| && t.section.kids[i].id == id
      requires trackerContext.Linked() && trackerContext.currentTracker == t && t in trackerContext.trackers
      requires Kids(t, ns) && i <= |ns| && ns' == (if i < |ns| then ns else ns + [0])
      requires t.OnlyAt(id, i) && SettledBut(t) && t.UnderExecuting() && t.parent != null
      modifies trackerContext`currentTracker, trackerContext`trackers
      modifies t`children, t`runState, t.above`runState
      modifies t.ChildAt(i)`runState
      ensures Met(t, i, section, ns') && OnlyBelow(t, old(trackerContext.trackers))
      ensures old(trackerContext.trackers) <= trackerContext.trackers
      ensures fresh(trackerContext.trackers - old(trackerContext.trackers))
      ensures var before := StateAfter(section.section, section.done);
              if !trackerContext.HasCompletedCycle() && before != CompletedSuccessfully && before != Failed then
                trackerContext.currentTracker == section && section.runState == Executing
                    && t.runState == ExecutingChildren
              else
                trackerContext.currentTracker == t && section.runState == before && t.runState == old(t.runState)
    {
      if i < |ns| {
        assert Settled(t.children[i]);
      }
      section := trackerContext.Acquire(id, i, t.section.kids[i]);
      assert Kids(t, ns');
    }

    lemma BeforeMeeting(t: Tracker, i: nat, ns: seq<nat>) returns (before: seq<nat>)
      requires DistinctSiblings(t.section) && i < |t.section.kids| && Inside(t, i)
      requires ns == Shares(t.section.kids, t.done, i, Known(t.section, t.done, i + 1))
      ensures trackerContext.Linked() && trackerContext.currentTracker == t && t in trackerContext.trackers
      ensures Kids(t, before) && i <= |before| && ns == (if i < |before| then before else before + [0])
      ensures t.OnlyAt(t.section.kids[i].id, i) && SettledBut(t) && t.UnderExecuting() && t.parent != null
      ensures t.id == t.section.id && t.done < Leaves(t.section)
      ensures trackerContext.HasCompletedCycle() <==> LeavesBefore(t.section.kids, i) > t.done
      ensures t.runState == (if LeavesBefore(t.section.kids, i) > t.done then ExecutingChildren else Executing)
    {
      assert Look(0);
      var s, k := t.section, t.done;
      before := Shares(s.kids, k, i, Known(s, k, i));
      SharesMeet(s, k, i, before);
    }

    /** Acquiring section i: what the counts say about the tracker found, and what becomes current. */
    method AcquireCounted(id: NameAndLocation, ghost t: Tracker, ghost i: nat, ghost ns: seq<nat>)
        returns (section: Tracker)
      requires DistinctSiblings(t.section) && i < |t.section.kids| && t.section.kids[i].id == id
      requires Inside(t, i)
      requires ns == Shares(t.section.kids, t.done, i, Known(t.section, t.done, i + 1))
      modifies trackerContext`currentTracker, trackerContext`trackers
      modifies t`children, t`runState, t.above`runState
      modifies t.ChildAt(i)`runState
      ensures Met(t, i, section, ns) && section.section == t.section.kids[i]
      ensures OnlyBelow(t, old(trackerContext.trackers)) && t.id == t.section.id && t.done < Leaves(t.section)
      ensures trackerContext.HasCompletedCycle() <==> LeavesBefore(t.section.kids, i) > t.done
      ensures if Turn(t.section.kids, t.done, i) then
                && trackerContext.currentTracker == section && section.runState == Executing
                    && t.runState == ExecutingChildren
                && section.done == t.done - LeavesBefore(t.section.kids, i) < Leaves(section.section)
              else
                && trackerContext.currentTracker == t
                && t.runState == (if LeavesBefore(t.section.kids, i) > t.done then ExecutingChildren else Executing)
                && section.runState == StateAfter(section.section, section.done)
                    && section.runState in {NotStarted, CompletedSuccessfully}
                && section.done == Share(t.section.kids, i, t.done + 1)
      ensures old(trackerContext.trackers) <= trackerContext.trackers
      ensures fresh(trackerContext.trackers - old(trackerContext.trackers))
    {
      ghost var before := BeforeMeeting(t, i, ns);
      section := AcquireKid(id, t, i, before, ns);
      Decided(t, i, section, ns);
    }

    /** Acquiring section i enters it, if it holds the next leaf, and passes it by otherwise. */
    method MeetSection(id: NameAndLocation, ghost t: Tracker, ghost i: nat) returns (section: Tracker)
      requires DistinctSiblings(t.section) && i < |t.section.kids| && t.section.kids[i].id == id
      requires Inside(t, i)
      modifies trackerContext`currentTracker, trackerContext`trackers
      modifies t`children, t`runState, t.above`runState
      modifies t.ChildAt(i)`runState
      ensures !Turn(t.section.kids, t.done, i) ==> Inside(t, i + 1) && !section.IsOpen()
      ensures Turn(t.section.kids, t.done, i) ==>
                && Inside(section, 0) && Around(t, i, section) && t.UnderExecuting() && section.parent == t
                && section.section == t.section.kids[i] && section.done == t.done - LeavesBefore(t.section.kids, i)
                && section.IsOpen()
      ensures OnlyBelow(t, old(trackerContext.trackers))
      ensures old(trackerContext.trackers) <= trackerContext.trackers
      ensures fresh(trackerContext.trackers - old(trackerContext.trackers))
    {
      ghost var ns := Shares(t.section.kids, t.done, i, Known(t.section, t.done, i + 1));
      section := AcquireCounted(id, t, i, ns);
      if Turn(t.section.kids, t.done, i) {
        SectionEntered(t, i, section, ns);
      } else {
        SectionPassed(t, i, section, ns);
      }
    }

    /** The state remembered for section i, and whether a section was closed before it, tell whose turn it is. */
    lemma Decided(t: Tracker, i: nat, c: Tracker, ns: seq<nat>)
      requires i < |t.section.kids| && t.done < Leaves(t.section)
      requires ns == Shares(t.section.kids, t.done, i, Known(t.section, t.done, i + 1)) && Met(t, i, c, ns)
      ensures c.section == t.section.kids[i] && c.done == Share(t.section.kids, i, t.done)
      ensures var state, turn := StateAfter(c.section, c.done), Turn(t.section.kids, t.done, i);
              && (turn <==> LeavesBefore(t.section.kids, i) <= t.done && state != CompletedSuccessfully)
              && (!turn ==> state == CompletedSuccessfully || state == NotStarted)
              && (!turn ==> c.done == Share(t.section.kids, i, t.done + 1))
              && (turn ==> c.done == t.done - LeavesBefore(t.section.kids, i) < Leaves(c.section))
              && state != Failed
    {
      SharesPass(t.section.kids, t.done, i, Known(t.section, t.done, i + 1));
    }

    method SectionStarted(id: NameAndLocation, ghost t: Tracker, ghost i: nat)
      returns (included: bool, ghost c: Tracker)
      requires DistinctSiblings(t.section) && i < |t.section.kids| && t.section.kids[i].id == id
      requires Inside(t, i)
      modifies `activeSections, `reported, trackerContext`currentTracker, trackerContext`trackers
      modifies t`children, t`runState, t.above`runState
      modifies t.ChildAt(i)`runState
      ensures included <==> Turn(t.section.kids, t.done, i)
      ensures !included ==> Inside(t, i + 1)
      ensures !included ==> activeSections == old(activeSections) && reported == old(reported)
      ensures included ==> Inside(c, 0) && Around(t, i, c) && t.UnderExecuting() && c.parent == t
      ensures included ==>
                c.section == t.section.kids[i] && c.done == t.done - LeavesBefore(t.section.kids, i) < Leaves(c.section)
      ensures included ==> activeSections == old(activeSections) + [c] && reported == old(reported) + [Starting(id)]
      ensures OnlyBelow(t, old(trackerContext.trackers))
      ensures old(trackerContext.trackers) <= trackerContext.trackers
      ensures fresh(trackerContext.trackers - old(trackerContext.trackers))
    {
      var section := MeetSection(id, t, i);
      c := section;
      included := section.IsOpen();
      if !included {
        return;
      }
      Enter(section, t, i);
    }

    method Enter(section: Tracker, ghost t: Tracker, ghost i: nat)
      requires Inside(section, 0) && Around(t, i, section)
      modifies `activeSections, `reported
      ensures Inside(section, 0) && Around(t, i, section)
      ensures activeSections == old(activeSections) + [section] && reported == old(reported) + [Starting(section.id)]
    {
      activeSections := activeSections + [section];
      reported := reported + [Starting(section.id)];
    }

    /** Leaves the section that was entered last: its tracker now counts one leaf more. */
    method SectionEnded(ghost t: Tracker, ghost i: nat, ghost c: Tracker) returns (thrown: bool)
      requires activeSections != [] && activeSections[|activeSections| - 1] == c
      requires Inside(c, |c.section.kids|) && c.parent == t && t.parent != null
      requires Around(t, i, c) && Turn(t.section.kids, t.done, i) && c.done == t.done - LeavesBefore(t.section.kids, i)
      modifies `activeSections, `reported, trackerContext`currentTracker, trackerContext`runState, c`runState, c`done
      ensures !thrown && Inside(t, i + 1)
      ensures activeSections == old(activeSections)[..|old(activeSections)| - 1]
      ensures reported == old(reported) + [Ended(c.id)]
    {
      var back := activeSections[|activeSections| - 1];
      thrown := CloseKid(t, i, back);
      Leave(t, i + 1, back);
    }

    method Leave(ghost t: Tracker, ghost i: nat, back: Tracker)
      requires activeSections != [] && Inside(t, i)
      modifies `activeSections, `reported
      ensures Inside(t, i)
      ensures activeSections == old(activeSections)[..|old(activeSections)| - 1]
      ensures reported == old(reported) + [Ended(back.id)]
    {
      activeSections := activeSections[..|activeSections| - 1];
      reported := reported + [Ended(back.id)];
    }

    method CloseKid(ghost t: Tracker, ghost i: nat, c: Tracker) returns (thrown: bool)
      requires Inside(c, |c.section.kids|) && c.parent == t && t.parent != null
      requires Around(t, i, c) && Turn(t.section.kids, t.done, i) && c.done == t.done - LeavesBefore(t.section.kids, i)
      modifies trackerContext`currentTracker, trackerContext`runState, c`runState, c`done
      ensures !thrown && Inside(t, i + 1)
    {
      assert Look(0);
      ghost var ns := Shares(t.section.kids, t.done, i, Known(t.section, t.done, i + 1));
      SharesPass(t.section.kids, t.done, i, |ns|);
      ReadyToClose(t, i, c);
      thrown := CloseAround(t, i, c, ns);
      Closed(t, i, c, ns);
    }

    /** The trackers around c, the current one, which stands below t. */
    ghost predicate Below(t: Tracker, i: nat, c: Tracker, ns: seq<nat>)
      reads trackerContext, trackerContext.trackers, t, t.above, t.children, c, c.children
    {
      && trackerContext.Linked() && t in trackerContext.trackers && c in trackerContext.trackers
      && c.parent == t && t.parent != null && c != t && c !in t.above && t.UnderExecuting()
      && Kids(t, ns) && OnlyChildAt(t, i, c) && t.runState == ExecutingChildren
      && forall x {:trigger Settled(x)} ::
           x in trackerContext.trackers && x != t && x !in t.above && x != c ==> Settled(x)
    }

    lemma ReadyToClose(t: Tracker, i: nat, c: Tracker)
      requires Inside(c, |c.section.kids|) && c.parent == t && t.parent != null && Around(t, i, c)
      ensures Below(t, i, c, Shares(t.section.kids, t.done, i, Known(t.section, t.done, i + 1)))
      ensures c.children != [] ==> Settled(c.children[|c.children| - 1])
    {
      assert Look(0);
      var tc := trackerContext;
      assert c.Rooted() && t in c.above && t in tc.trackers && t.Rooted();
      if c.children != [] {
        var last := c.children[|c.children| - 1];
        assert last in tc.trackers && last.parent == c && last.Rooted();
      }
    }

    method CloseAround(ghost t: Tracker, ghost i: nat, c: Tracker, ghost ns: seq<nat>) returns (thrown: bool)
      requires Below(t, i, c, ns) && trackerContext.currentTracker == c
      requires Within(c, |c.section.kids|)
      requires c.children != [] ==> Settled(c.children[|c.children| - 1])
      modifies trackerContext`currentTracker, trackerContext`runState, c`runState, c`done
      ensures !thrown && Settled(c) && c.done == old(c.done) + 1
      ensures i < |ns| && Below(t, i, c, ns[i := c.done])
      ensures trackerContext.currentTracker == t && trackerContext.HasCompletedCycle()
    {
      thrown := CloseCounted(c);
      assert Kids(t, ns[i := c.done]);
    }

    /** Back in the body of t after its section i, under tracker c, ran one more leaf. */
    lemma Closed(t: Tracker, i: nat, c: Tracker, ns: seq<nat>)
      requires t.id == t.section.id && i < |t.section.kids| && t.done < Leaves(t.section)
      requires ns == Shares(t.section.kids, t.done, i, Known(t.section, t.done, i + 1))
      requires Turn(t.section.kids, t.done, i) && c.done == t.done - LeavesBefore(t.section.kids, i) + 1
      requires i < |ns| && Below(t, i, c, ns[i := c.done]) && Settled(c)
      requires trackerContext.currentTracker == t && trackerContext.HasCompletedCycle()
      ensures Inside(t, i + 1)
    {
      SharesPass(t.section.kids, t.done, i, |ns|);
    }

    /** Closing the current tracker at the end of its body, whatever surrounds it. */
    method CloseCounted(c: Tracker) returns (thrown: bool)
      requires trackerContext.currentTracker == c && c.ctx == trackerContext && c.parent != null
      requires Within(c, |c.section.kids|)
      requires c.children != [] ==> Settled(c.children[|c.children| - 1])
      modifies trackerContext`currentTracker, trackerContext`runState, c`runState, c`done
      ensures !thrown && Settled(c) && c.done == old(c.done) + 1
      ensures trackerContext.currentTracker == c.parent && trackerContext.HasCompletedCycle()
    {
      Finished(c);
      ghost var ns := Shares(c.section.kids, c.done + 1, 0, Known(c.section, c.done + 1, 0));
      thrown := c.Close();
      c.done := c.done + 1;
      assert Kids(c, ns);
    }

    /** At the end of a body, the tracker is complete exactly if its last child is, or if it has none. */
    lemma Finished(c: Tracker)
      requires Within(c, |c.section.kids|)
      requires c.children != [] ==> Settled(c.children[|c.children| - 1])
      ensures Kids(c, Shares(c.section.kids, c.done + 1, 0, Known(c.section, c.done + 1, 0)))
      ensures c.children == [] ==> c.runState == Executing && StateAfter(c.section, c.done + 1) == CompletedSuccessfully
      ensures c.children != [] ==> c.runState == ExecutingChildren
      ensures c.children != [] && c.children[|c.children| - 1].IsComplete() ==>
                StateAfter(c.section, c.done + 1) == CompletedSuccessfully
      ensures c.children != [] && !c.children[|c.children| - 1].IsComplete() ==>
                StateAfter(c.section, c.done + 1) == ExecutingChildren
    {
      var kids, k := c.section.kids, c.done;
      SharesAll(kids, k);
      if kids != [] {
        LastShare(kids, k + 1);
        assert Shares(kids, k, |kids|, |kids|)[|kids| - 1] == Share(kids, |kids| - 1, k + 1);
      }
    }

    /** Running what follows a point inside t changes nothing outside t. */
    twostate predicate OnlyBelow(t: Tracker, before: set<Tracker>)
      reads before
    {
      forall x :: x in before && x != t && t !in x.above ==>
        x.children == old(x.children) && x.runState == old(x.runState) && x.done == old(x.done)
    }

    /** What is known of the place of a tracker without looking further. */
    lemma InPlace(t: Tracker, i: nat)
      requires Inside(t, i)
      ensures t in trackerContext.trackers && t.above <= trackerContext.trackers && t.Rooted()
      ensures forall j :: 0 <= j < |t.children| ==> t.children[j] in trackerContext.trackers
      ensures t.UnderExecuting() && t.done < Leaves(t.section) && t.parent != null
    {
      assert Look(0);
      assert t.Owns(trackerContext.trackers);
    }

    /** What does not stand below t does not stand below c either, and nor do the siblings of c. */
    lemma Apart(t: Tracker, i: nat, c: Tracker)
      requires Inside(c, 0) && c.parent == t && Around(t, i, c)
      ensures forall x :: x in trackerContext.trackers && x != t && t !in x.above ==> x != c && c !in x.above
      ensures c != t && c !in t.above
      ensures forall j :: 0 <= j < |t.children| && j != i ==>
        && t.children[j] in trackerContext.trackers && t.children[j] != c && c !in t.children[j].above
    {
      assert Look(0);
      assert t in c.above && t in trackerContext.trackers && t.Owns(trackerContext.trackers);
    }

    /** A section statement of a test body: the Section object, the body it guards, and its destructor. */
    method RunSection(s: Section, i: nat, ghost t: Tracker) returns (thrown: bool)
      requires t.section == s && DistinctSiblings(s) && i < |s.kids| && Inside(t, i)
      modifies `activeSections, `reported, trackerContext, trackerContext.trackers
      ensures !thrown && Inside(t, i + 1) && t.done == old(t.done)
      ensures OnlyBelow(t, old(trackerContext.trackers))
      ensures old(trackerContext.trackers) <= trackerContext.trackers
      ensures fresh(trackerContext.trackers - old(trackerContext.trackers))
      ensures trackerContext.rootTracker == old(trackerContext.rootTracker)
      ensures activeSections == old(activeSections)
      ensures t.done < Leaves(s) && reported == old(reported) + ByKid(s, t.done, i)
      decreases s, 0
    {
      thrown := false;
      InPlace(t, i);
      var included;
      ghost var c;
      included, c := SectionStarted(s.kids[i].id, t, i);
      if included {
        KidReports(old(reported), s, t.done, i, c.done);
        thrown := RunEntered(s.kids[i], t, i, c);
      } else {
        NothingByKid(reported, s, t.done, i);
      }
    }

    /** The body of a section that was entered, and its end. */
    method RunEntered(s: Section, ghost t: Tracker, ghost i: nat, ghost c: Tracker) returns (thrown: bool)
      requires c.section == s && DistinctSiblings(s) && Inside(c, 0) && c.parent == t && t.parent != null
      requires Around(t, i, c) && Turn(t.section.kids, t.done, i) && c.done == t.done - LeavesBefore(t.section.kids, i)
      requires activeSections != [] && activeSections[|activeSections| - 1] == c
      modifies `activeSections, `reported, trackerContext, trackerContext.trackers
      ensures !thrown && Inside(t, i + 1) && t.done == old(t.done)
      ensures OnlyBelow(t, old(trackerContext.trackers))
      ensures old(trackerContext.trackers) <= trackerContext.trackers
      ensures fresh(trackerContext.trackers - old(trackerContext.trackers))
      ensures trackerContext.rootTracker == old(trackerContext.rootTracker)
      ensures activeSections == old(activeSections)[..|old(activeSections)| - 1]
      ensures old(c.done) < Leaves(s)
      ensures reported == old(reported) + Visit(PathTo(s, old(c.done))[1..]) + [Ended(s.id)]
      decreases s, 3
    {
      thrown := RunInner(s, t, i, c);
      InPlace(c, |s.kids|);
      thrown := SectionEnded(t, i, c);
    }

    /** The body of a section as seen from the section around it. */
    method RunInner(s: Section, ghost t: Tracker, ghost i: nat, ghost c: Tracker) returns (thrown: bool)
      requires c.section == s && DistinctSiblings(s) && Inside(c, 0) && c.parent == t && Around(t, i, c)
      modifies `activeSections, `reported, trackerContext, trackerContext.trackers
      ensures !thrown && Inside(c, |s.kids|) && Around(t, i, c) && c.done == old(c.done) && t.done == old(t.done)
      ensures OnlyBelow(t, old(trackerContext.trackers))
      ensures old(trackerContext.trackers) <= trackerContext.trackers
      ensures fresh(trackerContext.trackers - old(trackerContext.trackers))
      ensures trackerContext.rootTracker == old(trackerContext.rootTracker)
      ensures activeSections == old(activeSections)
      ensures c.done < Leaves(s) && reported == old(reported) + Visit(PathTo(s, c.done)[1..])
      decreases s, 2
    {
      assert LeavesBefore(s.kids, 0) == 0;
      InPlace(c, 0);
      Apart(t, i, c);
      thrown := RunBody(s, 0, c);
      InPlace(c, |s.kids|);
    }

    /** The body of a section, from statement i on. */
    method RunBody(s: Section, i: nat, ghost t: Tracker) returns (thrown: bool)
      requires t.section == s && DistinctSiblings(s) && i <= |s.kids| && Inside(t, i)
      modifies `activeSections, `reported, trackerContext, trackerContext.trackers
      ensures !thrown && Inside(t, |s.kids|) && t.done == old(t.done)
      ensures OnlyBelow(t, old(trackerContext.trackers))
      ensures old(trackerContext.trackers) <= trackerContext.trackers
      ensures fresh(trackerContext.trackers - old(trackerContext.trackers))
      ensures trackerContext.rootTracker == old(trackerContext.rootTracker)
      ensures activeSections == old(activeSections)
      ensures t.done < Leaves(s) && reported == old(reported) + FromHere(s, t.done, i)
      decreases s, 1, |s.kids| - i
    {
      thrown := false;
      if i < |s.kids| {
        InPlace(t, i);
        FromHereStep(old(reported), s, t.done, i);
        thrown := RunSection(s, i, t);
        thrown := RunBody(s, i + 1, t);
      } else {
        InPlace(t, i);
      }
    }

    // ---------- Whole runs ----------

    /** Between two cycles: k leaves of the test have been run, and every tracker below the root says so. */
    ghost predicate BetweenCycles(test: Section, k: nat)
      reads *
    {
      forall key {:trigger Look(key)} :: Look(key) ==> Remembers(test, k)
    }

    ghost predicate Remembers(test: Section, k: nat)
      reads trackerContext, trackerContext.trackers
    {
      var tc := trackerContext;
      && tc.Linked() && tc.rootTracker != null && tc.rootTracker in tc.trackers
      && tc.rootTracker.parent == null && tc.rootTracker.section.kids == [test]
      && Kids(tc.rootTracker, if k == 0 then [] else [k])
      && forall x {:trigger Settled(x)} :: x in tc.trackers && x != tc.rootTracker ==> Settled(x)
    }

    /** Starts a cycle: the tracker of the test case becomes current, ready for the body of the test. */
    method StartTestCase(test: Section, ghost k: nat) returns (testCaseTracker: Tracker)
      requires k < Leaves(test) && DistinctSiblings(test) && BetweenCycles(test, k)
      modifies trackerContext, trackerContext.trackers
      ensures AtBody(test, testCaseTracker, k)
      ensures old(trackerContext.trackers) <= trackerContext.trackers
      ensures fresh(trackerContext.trackers - old(trackerContext.trackers))
    {
      ghost var root := trackerContext.rootTracker;
      NextTestCase(test, k);
      trackerContext.StartCycle();
      testCaseTracker := trackerContext.Acquire(test.id, 0, test);
      FirstInside(testCaseTracker);
    }

    lemma NextTestCase(test: Section, k: nat)
      requires k < Leaves(test) && BetweenCycles(test, k)
      ensures var tc := trackerContext;
              && tc.rootTracker != null
              && var root := tc.rootTracker;
              && root in tc.trackers && tc.Linked() && root.parent == null && root.above == {}
                  && root.section.kids == [test]
              && |root.children| == (if k == 0 then 0 else 1) && root.OnlyAt(test.id, 0)
              && (k > 0 ==> root.children[0] in tc.trackers && root.children[0].section == test
                            && root.children[0].runState == ExecutingChildren
                            && Counted(root.children[0]) && root.children[0].done == k && root.children[0] != root)
              && forall x {:trigger Settled(x)} :: x in tc.trackers && x != root ==> Settled(x)
    {
      assert Look(0);
      var root := trackerContext.rootTracker;
      assert root.Owns(trackerContext.trackers) && root.Rooted();
      if k > 0 {
        assert root.children[0].Rooted() && Settled(root.children[0]);
      }
    }

    lemma FirstInside(t: Tracker)
      requires trackerContext.Linked() && t in trackerContext.trackers && trackerContext.currentTracker == t
      requires OnlyChild(t) && trackerContext.rootTracker.runState == ExecutingChildren
      requires !trackerContext.HasCompletedCycle() && t.runState == Executing
      requires Counted(t) && t.done < Leaves(t.section)
      requires trackerContext.rootTracker in trackerContext.trackers
      requires forall x {:trigger Settled(x)} ::
                 x in trackerContext.trackers && x != trackerContext.rootTracker && x != t ==> Settled(x)
      ensures Inside(t, 0)
    {
      assert t.Rooted() && trackerContext.rootTracker.Rooted();
    }

    /** The root has this one child. */
    ghost predicate OnlyChild(t: Tracker)
      reads trackerContext, trackerContext.rootTracker
    {
      && trackerContext.rootTracker != null && trackerContext.rootTracker.parent == null
      && trackerContext.rootTracker.section.kids == [t.section]
      && trackerContext.rootTracker.children == [t] && t.parent == trackerContext.rootTracker
    }

    /** The tracker of the test case executes, at the start of the body, and k leaves have been run. */
    ghost predicate AtBody(test: Section, t: Tracker, k: nat)
      reads *
    {
      forall key {:trigger Look(key)} :: Look(key) ==>
        Inside(t, 0) && OnlyChild(t) && t.section == test && t.id == test.id && t.done == k
    }

    lemma InBody(test: Section, t: Tracker, k: nat)
      requires AtBody(test, t, k)
      ensures Inside(t, 0) && OnlyChild(t) && t.section == test && t.id == test.id && t.done == k
    {
      assert Look(0);
    }

    /** Runs the test body once under its tracker, and closes the tracker. */
    method RunCurrentTest(test: Section, testCaseTracker: Tracker, ghost k: nat) returns (thrown: bool)
      requires DistinctSiblings(test) && AtBody(test, testCaseTracker, k)
      modifies `activeSections, `reported, trackerContext, trackerContext.trackers
      ensures !thrown && HasRun(test, testCaseTracker, k + 1)
      ensures old(trackerContext.trackers) <= trackerContext.trackers
      ensures fresh(trackerContext.trackers - old(trackerContext.trackers))
      ensures activeSections == old(activeSections)
      ensures k < Leaves(test)
      ensures reported == old(reported) + Visit(PathTo(test, k))
    {
      InBody(test, testCaseTracker, k);
      InPlace(testCaseTracker, 0);
      VisitFromInside(old(reported), test, k);
      SectionStarting(test, testCaseTracker);
      thrown := InvokeActiveTestCase(test, testCaseTracker);
      InPlace(testCaseTracker, |test.kids|);
      thrown := EndTestCase(test, testCaseTracker);
    }

    /** The tracker of the test case is closed, and k leaves have been run. */
    ghost predicate HasRun(test: Section, t: Tracker, k: nat)
      reads *
    {
      forall key {:trigger Look(key)} :: Look(key) ==>
        t.section == test && t.done == k && BetweenCycles(test, k) && Settled(t)
    }

    lemma CompletedIffAll(test: Section, t: Tracker, k: nat)
      requires HasRun(test, t, k) && k > 0
      ensures BetweenCycles(test, k) && (t.IsSuccessfullyCompleted() <==> k == Leaves(test))
    {
      assert Look(0);
    }

    method SectionStarting(test: Section, ghost t: Tracker)
      requires Inside(t, 0) && OnlyChild(t)
      modifies `reported
      ensures Inside(t, 0) && OnlyChild(t) && reported == old(reported) + [Starting(test.id)]
    {
      reported := reported + [Starting(test.id)];
    }

    method EndTestCase(test: Section, testCaseTracker: Tracker) returns (thrown: bool)
      requires testCaseTracker.section == test
      requires Inside(testCaseTracker, |test.kids|) && OnlyChild(testCaseTracker)
      modifies `reported
      modifies trackerContext`currentTracker, trackerContext`runState, testCaseTracker`runState, testCaseTracker`done
      ensures !thrown && HasRun(test, testCaseTracker, old(testCaseTracker.done) + 1)
      ensures reported == old(reported) + [Ended(test.id)]
    {
      thrown := CloseTestCase(test, testCaseTracker);
      reported := reported + [Ended(test.id)];
    }

    method InvokeActiveTestCase(test: Section, ghost t: Tracker) returns (thrown: bool)
      requires DistinctSiblings(test) && t.section == test && Inside(t, 0) && OnlyChild(t)
      modifies `activeSections, `reported, trackerContext, trackerContext.trackers
      ensures !thrown && Inside(t, |test.kids|) && OnlyChild(t) && t.done == old(t.done)
      ensures old(trackerContext.trackers) <= trackerContext.trackers
      ensures fresh(trackerContext.trackers - old(trackerContext.trackers))
      ensures activeSections == old(activeSections)
      ensures t.done < Leaves(test) && reported == old(reported) + Visit(PathTo(test, t.done)[1..])
    {
      InPlace(t, 0);
      assert trackerContext.rootTracker in t.above;
      assert trackerContext.rootTracker.Rooted() by {
        assert Look(0);
      }
      assert LeavesBefore(test.kids, 0) == 0;
      thrown := RunBody(test, 0, t);
    }

    method CloseTestCase(test: Section, testCaseTracker: Tracker) returns (thrown: bool)
      requires testCaseTracker.section == test
      requires Inside(testCaseTracker, |test.kids|) && OnlyChild(testCaseTracker)
      modifies trackerContext`currentTracker, trackerContext`runState, testCaseTracker`runState, testCaseTracker`done
      ensures !thrown && HasRun(test, testCaseTracker, old(testCaseTracker.done) + 1)
    {
      ReadyToCloseTest(test, testCaseTracker);
      thrown := CloseCounted(testCaseTracker);
      TestClosed(test, testCaseTracker);
    }

    lemma ReadyToCloseTest(test: Section, t: Tracker)
      requires t.section == test && Inside(t, |test.kids|) && OnlyChild(t)
      ensures trackerContext.Linked() && t in trackerContext.trackers
          && trackerContext.rootTracker in trackerContext.trackers
      ensures t != trackerContext.rootTracker && trackerContext.currentTracker == t && t.ctx == trackerContext
      ensures Within(t, |t.section.kids|) && (t.children != [] ==> Settled(t.children[|t.children| - 1]))
      ensures forall x {:trigger Settled(x)} ::
        x in trackerContext.trackers && x != trackerContext.rootTracker && x != t ==> Settled(x)
    {
      assert Look(0);
      if t.children != [] {
        var last := t.children[|t.children| - 1];
        assert t.Owns(trackerContext.trackers) && last.Rooted() && Settled(last);
      }
      assert t.Rooted() && trackerContext.rootTracker.Rooted();
    }

    lemma TestClosed(test: Section, t: Tracker)
      requires t.section == test && t.id == test.id && OnlyChild(t) && Settled(t)
      requires trackerContext.Linked() && trackerContext.rootTracker in trackerContext.trackers
      requires t.done > 0
      requires forall x {:trigger Settled(x)} ::
        x in trackerContext.trackers && x != trackerContext.rootTracker && x != t ==> Settled(x)
      ensures HasRun(test, t, t.done)
    {
      assert Kids(trackerContext.rootTracker, [t.done]);
    }

    /**
     One pass over a test: cycles until the tracker of the test case is complete. There is exactly
     one for each leaf, and they run the paths to the leaves in depth-first order. In the cycle for leaf k
     the body evaluates the generators of uses[k]; drawn are the indices it gets.
     */
    method RunPass(test: Section, generators: GeneratorsForTest, uses: seq<seq<Use>>, ghost n: nat)
      returns (thrown: bool, cycles: nat, drawn: seq<seq<nat>>)
      requires DistinctSiblings(test) && activeSections == [] && |uses| == Leaves(test) && AllPositive(uses)
      requires generators.RegisteredAt(KnownBefore(uses, n, 0), n)
      modifies `activeSections, `reported, trackerContext, generators
      ensures !thrown && cycles == Leaves(test) == |LeafPaths(test)| && activeSections == []
      ensures reported == old(reported) + Visits(LeafPaths(test))
      ensures Positive(RegisteredBy(uses)) && drawn == PassDraws(uses, n, |uses|)
      ensures generators.RegisteredAt(RegisteredBy(uses), n)
      ensures fresh(generators.Infos() - old(generators.Infos()))
    {
      var root := trackerContext.StartRun(Section(NameAndLocation("{root}", "", 0), [test]));
      StartOfPass(test, generators, uses, n, reported);
      LeafPathsInOrder(test);
      thrown, cycles, drawn := RunCycles(test, generators, uses, n, reported);
      EndOfPass(test, generators, uses, n, old(reported), drawn);
    }

    /** The inner loop of a pass. */
    method RunCycles(test: Section, generators: GeneratorsForTest, uses: seq<seq<Use>>, ghost n: nat,
        ghost before: seq<Event>)
      returns (thrown: bool, cycles: nat, drawn: seq<seq<nat>>)
      requires DistinctSiblings(test) && InPass(test, generators, uses, n, 0, 0, before, [])
      modifies `activeSections, `reported, trackerContext, trackerContext.trackers, generators
      ensures !thrown && cycles == Leaves(test) && activeSections == old(activeSections)
      ensures InPass(test, generators, uses, n, cycles, cycles, before, drawn)
      ensures fresh(generators.Infos() - old(generators.Infos()))
    {
      cycles, thrown, drawn := 0, false, [];
      var completed := false;
      while !completed
        invariant !thrown && cycles <= Leaves(test) && activeSections == old(activeSections)
        invariant completed <==> cycles == Leaves(test)
        invariant InPass(test, generators, uses, n, cycles, cycles, before, drawn)
        invariant fresh(trackerContext.trackers - old(trackerContext.trackers))
        invariant fresh(generators.Infos() - old(generators.Infos()))
        decreases Leaves(test) - cycles
      {
        thrown, completed, drawn := CycleOfPass(test, cycles, generators, uses, n, before, drawn);
        cycles := cycles + 1;
      }
    }

    /**
     Inside pass n: k cycles have been run, and the generators of m cycles evaluated; what was drawn, and
     what was reported since the pass began.
     */
    ghost predicate InPass(test: Section, generators: GeneratorsForTest, uses: seq<seq<Use>>, n: nat, k: nat, m: nat,
                           before: seq<Event>, drawn: seq<seq<nat>>)
      reads *
    {
      forall key {:trigger Look(key)} :: Look(key) ==>
        && k <= Leaves(test) == |uses| == |LeafPaths(test)| && m <= |uses| && AllPositive(uses)
            && Positive(RegisteredBy(uses))
        && BetweenCycles(test, k) && generators.RegisteredAt(KnownBefore(uses, n, m), n)
        && drawn == PassDraws(uses, n, m) && reported == before + Visits(LeafPaths(test)[..k])
    }

    lemma StartOfPass(test: Section, generators: GeneratorsForTest, uses: seq<seq<Use>>, n: nat, before: seq<Event>)
      requires trackerContext.Linked() && trackerContext.rootTracker != null
      requires trackerContext.trackers == {trackerContext.rootTracker} && trackerContext.rootTracker.children == []
      requires trackerContext.rootTracker.parent == null && trackerContext.rootTracker.section.kids == [test]
      requires |uses| == Leaves(test) && AllPositive(uses) && generators.RegisteredAt(KnownBefore(uses, n, 0), n)
      requires reported == before
      ensures InPass(test, generators, uses, n, 0, 0, before, [])
    {
      FirstCycle(test);
      LeafPathsInOrder(test);
      RegisteredArePositive(uses);
      assert LeafPaths(test)[..0] == [];
    }

    lemma EndOfPass(test: Section, generators: GeneratorsForTest, uses: seq<seq<Use>>, n: nat,
                    before: seq<Event>, drawn: seq<seq<nat>>)
      requires InPass(test, generators, uses, n, Leaves(test), Leaves(test), before, drawn)
      ensures |uses| == Leaves(test) && Positive(RegisteredBy(uses)) && drawn == PassDraws(uses, n, |uses|)
      ensures generators.RegisteredAt(RegisteredBy(uses), n) && reported == before + Visits(LeafPaths(test))
    {
      assert Look(0);
      assert LeafPaths(test)[..Leaves(test)] == LeafPaths(test);
      AllRegistered(uses, n);
    }

    /** Cycle k of pass n: the generators that the body evaluates, and the sections it runs. */
    method CycleOfPass(test: Section, k: nat, generators: GeneratorsForTest, uses: seq<seq<Use>>, ghost n: nat,
                       ghost before: seq<Event>, drawn: seq<seq<nat>>)
      returns (thrown: bool, completed: bool, drawnNow: seq<seq<nat>>)
      requires k < Leaves(test) && DistinctSiblings(test) && InPass(test, generators, uses, n, k, k, before, drawn)
      modifies `activeSections, `reported, trackerContext, trackerContext.trackers, generators
      ensures !thrown && (completed <==> k + 1 == Leaves(test)) && activeSections == old(activeSections)
      ensures InPass(test, generators, uses, n, k + 1, k + 1, before, drawnNow)
      ensures fresh(trackerContext.trackers - old(trackerContext.trackers))
      ensures fresh(generators.Infos() - old(generators.Infos()))
    {
      drawnNow := EvaluateInCycle(test, k, generators, uses, n, before, drawn);
      thrown, completed := RunEvaluated(test, k, generators, uses, n, before, drawnNow);
    }

    /** The generators that the body evaluates in cycle k of pass n. */
    method EvaluateInCycle(test: Section, k: nat, generators: GeneratorsForTest, uses: seq<seq<Use>>, ghost n: nat,
                           ghost before: seq<Event>, drawn: seq<seq<nat>>)
      returns (drawnNow: seq<seq<nat>>)
      requires k < Leaves(test) && InPass(test, generators, uses, n, k, k, before, drawn)
      modifies generators
      ensures InPass(test, generators, uses, n, k, k + 1, before, drawnNow)
      ensures fresh(generators.Infos() - old(generators.Infos()))
    {
      BeforeEvaluation(test, generators, uses, n, k, before, drawn);
      var cycleDrawn := generators.Evaluate(uses[k], KnownBefore(uses, n, k), RegisteredBy(uses), n);
      drawnNow := drawn + [cycleDrawn];
    }

    lemma BeforeEvaluation(test: Section, generators: GeneratorsForTest, uses: seq<seq<Use>>, n: nat, k: nat,
                           before: seq<Event>, drawn: seq<seq<nat>>)
      requires InPass(test, generators, uses, n, k, k, before, drawn) && k < Leaves(test)
      ensures Leaves(test) == |uses| == |LeafPaths(test)| && AllPositive(uses) && Positive(RegisteredBy(uses))
      ensures Remembers(test, k) && generators.RegisteredAt(KnownBefore(uses, n, k), n)
      ensures n == 0 || (KnownBefore(uses, n, k) == RegisteredBy(uses) && AllKnown(RegisteredBy(uses), uses[k]))
      ensures RegisterAll(KnownBefore(uses, n, k), uses[k]) == KnownBefore(uses, n, k + 1)
      ensures drawn + [Draws(RegisteredBy(uses), uses[k], n)] == PassDraws(uses, n, k + 1)
      ensures reported == before + Visits(LeafPaths(test)[..k])
    {
      assert Look(0);
      KnownNext(uses, n, k);
    }

    /** Cycle k of pass n, after its evaluations. */
    method RunEvaluated(test: Section, ghost k: nat, generators: GeneratorsForTest, uses: seq<seq<Use>>, ghost n: nat,
                        ghost before: seq<Event>, ghost drawn: seq<seq<nat>>)
      returns (thrown: bool, completed: bool)
      requires k < Leaves(test) && DistinctSiblings(test) && InPass(test, generators, uses, n, k, k + 1, before, drawn)
      modifies `activeSections, `reported, trackerContext, trackerContext.trackers
      ensures !thrown && (completed <==> k + 1 == Leaves(test)) && activeSections == old(activeSections)
      ensures InPass(test, generators, uses, n, k + 1, k + 1, before, drawn)
      ensures fresh(trackerContext.trackers - old(trackerContext.trackers))
    {
      AtCycle(test, generators, uses, n, k, before, drawn);
      thrown, completed := RunCycle(test, k);
    }

    lemma AtCycle(test: Section, generators: GeneratorsForTest, uses: seq<seq<Use>>, n: nat, k: nat,
                  before: seq<Event>, drawn: seq<seq<nat>>)
      requires InPass(test, generators, uses, n, k, k + 1, before, drawn) && k < Leaves(test)
      ensures Leaves(test) == |uses| == |LeafPaths(test)| && AllPositive(uses) && Positive(RegisteredBy(uses))
      ensures BetweenCycles(test, k) && generators.RegisteredAt(KnownBefore(uses, n, k + 1), n)
      ensures drawn == PassDraws(uses, n, k + 1)
      ensures reported + Visit(PathTo(test, k)) == before + Visits(LeafPaths(test)[..k + 1])
    {
      assert Look(0);
      LeafPathsInOrder(test);
      VisitNext(before, LeafPaths(test), k);
    }

    lemma FirstCycle(test: Section)
      requires trackerContext.Linked() && trackerContext.rootTracker != null
      requires trackerContext.trackers == {trackerContext.rootTracker} && trackerContext.rootTracker.children == []
      requires trackerContext.rootTracker.parent == null && trackerContext.rootTracker.section.kids == [test]
      ensures BetweenCycles(test, 0)
    {
    }

    method StartAndRun(test: Section, ghost k: nat) returns (testCaseTracker: Tracker, thrown: bool)
      requires k < Leaves(test) && DistinctSiblings(test) && BetweenCycles(test, k)
      modifies `activeSections, `reported, trackerContext, trackerContext.trackers
      ensures !thrown && HasRun(test, testCaseTracker, k + 1)
      ensures fresh(trackerContext.trackers - old(trackerContext.trackers))
      ensures activeSections == old(activeSections)
      ensures reported == old(reported) + Visit(PathTo(test, k))
    {
      testCaseTracker := StartTestCase(test, k);
      thrown := RunCurrentTest(test, testCaseTracker, k);
    }

    /** One cycle, in which leaf number k is run. */
    method RunCycle(test: Section, ghost k: nat) returns (thrown: bool, completed: bool)
      requires k < Leaves(test) && DistinctSiblings(test) && BetweenCycles(test, k)
      modifies `activeSections, `reported, trackerContext, trackerContext.trackers
      ensures !thrown && BetweenCycles(test, k + 1) && (completed <==> k + 1 == Leaves(test))
      ensures fresh(trackerContext.trackers - old(trackerContext.trackers))
      ensures activeSections == old(activeSections)
      ensures reported == old(reported) + Visit(PathTo(test, k))
    {
      var testCaseTracker;
      testCaseTracker, thrown := StartAndRun(test, k);
      CompletedIffAll(test, testCaseTracker, k + 1);
      completed := testCaseTracker.IsSuccessfullyCompleted();
    }

    /** Before pass n, the last of which is followed by the start: what is registered, drawn and reported. */
    ghost predicate BetweenPasses(test: Section, generators: GeneratorsForTest, uses: seq<seq<Use>>, n: nat,
                                  before: seq<Event>, drawn: seq<seq<seq<nat>>>)
      reads *
    {
      forall key {:trigger Look(key)} :: Look(key) ==>
        && Positive(RegisteredBy(uses)) && |drawn| == n <= Product(SizesOf(RegisteredBy(uses)))
        && (if n < Product(SizesOf(RegisteredBy(uses))) then generators.RegisteredAt(KnownBefore(uses, n, 0), n)
            else generators.RegisteredAt(RegisteredBy(uses), 0))
        && (forall m :: 0 <= m < n ==> drawn[m] == PassDraws(uses, m, |uses|))
        && reported == before + Times(n, Visits(LeafPaths(test)))
    }

    /** Pass n, and the advance after it. */
    method PassAndAdvance(test: Section, generators: GeneratorsForTest, uses: seq<seq<Use>>, ghost n: nat,
                          ghost before: seq<Event>, drawn: seq<seq<seq<nat>>>)
      returns (thrown: bool, more: bool, drawnNow: seq<seq<seq<nat>>>)
      requires DistinctSiblings(test) && activeSections == [] && |uses| == Leaves(test) && AllPositive(uses)
      requires n < Product(SizesOf(RegisteredBy(uses))) && BetweenPasses(test, generators, uses, n, before, drawn)
      modifies `activeSections, `reported, trackerContext, generators, generators.Infos()
      ensures !thrown && activeSections == [] && (more <==> n + 1 < Product(SizesOf(RegisteredBy(uses))))
      ensures BetweenPasses(test, generators, uses, n + 1, before, drawnNow)
      ensures fresh(generators.Infos() - old(generators.Infos()))
    {
      AtPass(test, generators, uses, n, before, drawn);
      var cycles, passDrawn;
      thrown, cycles, passDrawn := RunPass(test, generators, uses, n);
      more := generators.AdvanceFrom(SizesOf(RegisteredBy(uses)), n);
      drawnNow := drawn + [passDrawn];
    }

    lemma AtPass(test: Section, generators: GeneratorsForTest, uses: seq<seq<Use>>, n: nat,
                 before: seq<Event>, drawn: seq<seq<seq<nat>>>)
      requires n < Product(SizesOf(RegisteredBy(uses))) && BetweenPasses(test, generators, uses, n, before, drawn)
      ensures Positive(RegisteredBy(uses)) && |drawn| == n && generators.RegisteredAt(KnownBefore(uses, n, 0), n)
      ensures forall m :: 0 <= m < n ==> drawn[m] == PassDraws(uses, m, |uses|)
      ensures reported + Visits(LeafPaths(test)) == before + Times(n + 1, Visits(LeafPaths(test)))
    {
      assert Look(0);
      OnceMore(before, n, Visits(LeafPaths(test)));
    }

    /**
     `runTest`, from no generator registered: one pass for each tuple of generator indices, in counting
     order, in which every evaluation gives the index of its generator in that tuple; then the generators
     are back at the start.
     */
    method RunTest(test: Section, generators: GeneratorsForTest, uses: seq<seq<Use>>)
      returns (thrown: bool, passes: nat, drawn: seq<seq<seq<nat>>>)
      requires DistinctSiblings(test) && activeSections == [] && |uses| == Leaves(test) && AllPositive(uses)
      requires generators.generatorsInOrder == [] && generators.generatorsByName == map[]
      modifies `activeSections, `reported, trackerContext, generators
      ensures Positive(RegisteredBy(uses))
      ensures !thrown && |drawn| == passes == Product(SizesOf(RegisteredBy(uses)))
      ensures forall n :: 0 <= n < passes ==> drawn[n] == PassDraws(uses, n, |uses|)
      ensures generators.RegisteredAt(RegisteredBy(uses), 0)
      ensures reported == old(reported) + Times(passes, Visits(LeafPaths(test)))
    {
      FirstPass(test, generators, uses, reported);
      passes, thrown, drawn := 0, false, [];
      var more := true;
      while more
        invariant !thrown && activeSections == [] && passes <= Product(SizesOf(RegisteredBy(uses)))
        invariant more <==> passes < Product(SizesOf(RegisteredBy(uses)))
        invariant BetweenPasses(test, generators, uses, passes, old(reported), drawn)
        invariant fresh(generators.Infos())
        decreases Product(SizesOf(RegisteredBy(uses))) - passes
      {
        thrown, more, drawn := PassAndAdvance(test, generators, uses, passes, old(reported), drawn);
        passes := passes + 1;
      }
      assert Look(0);
    }

    lemma FirstPass(test: Section, generators: GeneratorsForTest, uses: seq<seq<Use>>, before: seq<Event>)
      requires AllPositive(uses) && generators.generatorsInOrder == [] && generators.generatorsByName == map[]
      requires reported == before
      ensures BetweenPasses(test, generators, uses, 0, before, []) && Product(SizesOf(RegisteredBy(uses))) > 0
      ensures generators.Infos() == {}
    {
      generators.NothingRegistered();
      RegisteredArePositive(uses);
      ProductPositive(SizesOf(RegisteredBy(uses)));
    }

    /** The section had no turn: on to the next statement. */
    lemma SectionPassed(t: Tracker, i: nat, c: Tracker, ns: seq<nat>)
      requires t.id == t.section.id && i < |t.section.kids| && t.done < Leaves(t.section)
      requires ns == Shares(t.section.kids, t.done, i, Known(t.section, t.done, i + 1)) && Met(t, i, c, ns)
      requires c.done == Share(t.section.kids, i, t.done + 1) && c.runState == StateAfter(c.section, c.done)
      requires !Turn(t.section.kids, t.done, i)
      requires trackerContext.currentTracker == t
      requires trackerContext.HasCompletedCycle() <==> LeavesBefore(t.section.kids, i) > t.done
      requires t.runState == if LeavesBefore(t.section.kids, i) > t.done then ExecutingChildren else Executing
      ensures Inside(t, i + 1)
    {
      SharesPass(t.section.kids, t.done, i, Known(t.section, t.done, i + 1));
    }

    /** The section has its turn: inside its body. */
    lemma SectionEntered(t: Tracker, i: nat, c: Tracker, ns: seq<nat>)
      requires t.id == t.section.id && i < |t.section.kids| && t.done < Leaves(t.section)
      requires ns == Shares(t.section.kids, t.done, i, Known(t.section, t.done, i + 1)) && Met(t, i, c, ns)
      requires t.runState == ExecutingChildren
      requires trackerContext.currentTracker == c && !trackerContext.HasCompletedCycle()
      requires c.done < Leaves(c.section) && c.runState == Executing
      ensures Inside(c, 0) && Around(t, i, c)
    {
    }
  }

  /** What the statements of a body from number i on report in the cycle for leaf k. */
  function FromHere(s: Section, k: nat, i: nat): seq<Event>
    requires k < Leaves(s) && i <= |s.kids|
  {
    if LeavesBefore(s.kids, i) <= k then Visit(PathTo(s, k)[1..]) else []
  }

  /** What section number i reports in the cycle for leaf k. */
  function ByKid(s: Section, k: nat, i: nat): seq<Event>
    requires k < Leaves(s) && i < |s.kids|
  {
    if Turn(s.kids, k, i) then Visit(PathTo(s.kids[i], k - LeavesBefore(s.kids, i))) else []
  }

  lemma FromHereStep(before: seq<Event>, s: Section, k: nat, i: nat)
    requires k < Leaves(s) && i < |s.kids|
    ensures before + ByKid(s, k, i) + FromHere(s, k, i + 1) == before + FromHere(s, k, i)
  {
    LeavesBeforeMonotone(s.kids, i, i + 1);
    if Turn(s.kids, k, i) {
      PathInside(s, k, i);
      assert FromHere(s, k, i + 1) == [];
    } else {
      assert ByKid(s, k, i) == [] && FromHere(s, k, i + 1) == FromHere(s, k, i);
    }
  }

  lemma PathInside(s: Section, k: nat, i: nat)
    requires k < Leaves(s) && i < |s.kids| && Turn(s.kids, k, i)
    ensures k - LeavesBefore(s.kids, i) < Leaves(s.kids[i])
    ensures PathTo(s, k)[1..] == PathTo(s.kids[i], k - LeavesBefore(s.kids, i))
  {
    ChildWithUnique(s.kids, k, 0, i);
    assert PathTo(s, k)[1..] == PathWithin(s.kids, k, 0);
  }

  lemma KidReports(before: seq<Event>, s: Section, k: nat, i: nat, j: nat)
    requires k < Leaves(s) && i < |s.kids| && Turn(s.kids, k, i) && j == k - LeavesBefore(s.kids, i)
    ensures j < Leaves(s.kids[i])
    ensures before + [Starting(s.kids[i].id)] + Visit(PathTo(s.kids[i], j)[1..]) + [Ended(s.kids[i].id)]
        == before + ByKid(s, k, i)
  {
    VisitFromInside(before, s.kids[i], j);
  }

  lemma NothingByKid(before: seq<Event>, s: Section, k: nat, i: nat)
    requires k < Leaves(s) && i < |s.kids| && !Turn(s.kids, k, i)
    ensures before == before + ByKid(s, k, i)
  {
  }

  lemma VisitFromInside(before: seq<Event>, s: Section, k: nat)
    requires k < Leaves(s)
    ensures before + [Starting(s.id)] + Visit(PathTo(s, k)[1..]) + [Ended(s.id)] == before + Visit(PathTo(s, k))
  {
    VisitInside(before, PathTo(s, k));
  }

  lemma VisitInside(before: seq<Event>, p: Path)
    requires p != []
    ensures before + [Starting(p[0])] + Visit(p[1..]) + [Ended(p[0])] == before + Visit(p)
  {
    var inner := Visit(p[1..]);
    assert before + [Starting(p[0])] + inner + [Ended(p[0])] == before + ([Starting(p[0])] + inner + [Ended(p[0])]);
  }

  lemma SharesMeet(s: Section, k: nat, i: nat, ns: seq<nat>)
    requires i < |s.kids| && k < Leaves(s) && ns == Shares(s.kids, k, i, Known(s, k, i))
    ensures Shares(s.kids, k, i, Known(s, k, i + 1)) == if i < |ns| then ns else ns + [0]
    ensures (if i < |ns| then ns[i] else 0) == Share(s.kids, i, k)
  {
    SharesPass(s.kids, k, i, Known(s, k, i + 1));
  }
}
