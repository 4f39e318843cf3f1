/**
 The trackers of Catch: a mutable tree that remembers, from one run of a test to the next, which
 sections are finished, and a context that says where the running test is and whether this run has
 already closed a section.
 */
module SectionTracker {
  import opened TestSections

  datatype CycleState = NotStarted | Executing | ExecutingChildren | NeedsAnotherRun | CompletedSuccessfully | Failed

  datatype RunState = RunNotStarted | RunExecuting | CompletedCycle

  class TrackerContext {
    var rootTracker: Tracker?
    var currentTracker: Tracker?
    var runState: RunState

    ghost var trackers: set<Tracker>  // all trackers of the run

    constructor ()
      ensures rootTracker == null && currentTracker == null && runState == RunNotStarted && trackers == {}
    {
      rootTracker, currentTracker, runState := null, null, RunNotStarted;
      trackers := {};
    }

    /** The trackers form a tree: parents and children agree. */
    ghost predicate Linked()
      reads `trackers, trackers`children
    {
      forall x :: x in trackers ==> x.ctx == this && x.Rooted() && x.above <= trackers && x.Owns(trackers)
    }

    /** Replaces whatever trackers a previous run left by a single root; its section is the test as a whole. */
    method StartRun(ghost whole: Section) returns (root: Tracker)
      modifies this
      ensures fresh(root) && rootTracker == root && currentTracker == null && runState == RunExecuting
      ensures trackers == {root} && Linked()
      ensures root.parent == null && root.IsNew(NameAndLocation("{root}", "", 0), this, null, whole)
      ensures root.runState == NotStarted
    {
      root := new Tracker(NameAndLocation("{root}", "", 0), this, null, whole);
      rootTracker, currentTracker, runState := root, null, RunExecuting;
      trackers := {root};
    }

    method StartCycle()
      modifies `currentTracker, `runState
      ensures currentTracker == rootTracker && runState == RunExecuting
    {
      currentTracker := rootTracker;
      runState := RunExecuting;
    }

    method CompleteCycle()
      modifies `runState
      ensures runState == CompletedCycle
    {
      runState := CompletedCycle;
    }

    predicate HasCompletedCycle()
      reads this
    {
      runState == CompletedCycle
    }

    /**
     The tracker for a section met while the current tracker executes: its child number i, the one
     of that name and location, or a new one if there is none. It is opened unless it is complete
     or this cycle has closed a section.
     */
    method Acquire(id: NameAndLocation, ghost i: nat, ghost kid: Section) returns (section: Tracker)
      requires Linked() && currentTracker != null && currentTracker in trackers
      requires i <= |currentTracker.children| && currentTracker.OnlyAt(id, i)
      modifies `currentTracker, `trackers
      modifies currentTracker`children, currentTracker`runState, currentTracker.above`runState
      modifies currentTracker.ChildAt(i)`runState
      ensures var cur := old(currentTracker);
              && Linked() && i < |cur.children| && cur.children[i] == section && section.id == id
                  && section.parent == cur
              && if i < |old(cur.children)| then
                   cur.children == old(cur.children) && trackers == old(trackers)
                 else
                   cur.children == old(cur.children) + [section] && trackers == old(trackers) + {section}
                   && fresh(section) && section.IsNew(id, this, cur, kid)
      ensures var cur := old(currentTracker);
              var before := if i < |old(cur.children)| then old(cur.children[i].runState) else NotStarted;
              if !HasCompletedCycle() && before != CompletedSuccessfully && before != Failed then
                currentTracker == section && section.runState == Executing && cur.runState == ExecutingChildren
              else
                currentTracker == cur && section.runState == before && cur.runState == old(cur.runState)
      ensures old(currentTracker.UnderExecuting()) ==> old(currentTracker).UnderExecuting()
    {
      section := FindOrAdd(id, i, kid);
      if !HasCompletedCycle() {
        section.TryOpen();
      }
    }

    method FindOrAdd(id: NameAndLocation, ghost i: nat, ghost kid: Section) returns (section: Tracker)
      requires Linked() && currentTracker != null && currentTracker in trackers
      requires i <= |currentTracker.children| && currentTracker.OnlyAt(id, i)
      modifies `trackers, currentTracker`children
      ensures Linked() && i < |currentTracker.children| && currentTracker.children[i] == section
      ensures section.id == id && section.parent == currentTracker
      ensures if i < |old(currentTracker.children)| then
                currentTracker.children == old(currentTracker.children) && trackers == old(trackers)
                && section.runState == old(currentTracker.children[i].runState)
              else
                currentTracker.children == old(currentTracker.children) + [section]
                && trackers == old(trackers) + {section} && fresh(section)
                && section.IsNew(id, this, currentTracker, kid) && section.runState == NotStarted
    {
      var found := currentTracker.FindChild(id);
      if found != null {
        section := found;
      } else {
        section := new Tracker(id, this, currentTracker, kid);
        currentTracker.AddChild(section);
        trackers := trackers + {section};
        assert section.Owns(trackers);
      }
    }
  }

  class Tracker {
    const id: NameAndLocation
    const ctx: TrackerContext
    const parent: Tracker?
    var children: seq<Tracker>
    var runState: CycleState

    ghost const depth: nat
    ghost const above: set<Tracker>   // the trackers above this one
    ghost const section: Section      // the section it stands for
    ghost var done: nat               // how many of its leaves have been run

    constructor (id: NameAndLocation, ctx: TrackerContext, parent: Tracker?, ghost section: Section)
      requires parent != null ==> parent.Chained()
      ensures IsNew(id, ctx, parent, section) && runState == NotStarted
    {
      this.id, this.ctx, this.parent := id, ctx, parent;
      children, runState := [], NotStarted;
      depth := if parent == null then 0 else parent.depth + 1;
      above := if parent == null then {} else {parent} + parent.above;
      this.section, done := section, 0;
    }

    // ---------- Shape ----------

    /** `above` is the parent and what is above it, at lesser depth. */
    ghost predicate Rooted() {
      && (parent == null ==> above == {})
      && (parent != null ==> parent.depth < depth && above == {parent} + parent.above)
      && forall a :: a in above ==> a.depth < depth && a.above <= above
    }

    /** So it is all the way up. */
    ghost predicate Chained() {
      Rooted() && forall a :: a in above ==> a.Rooted()
    }

    /** The children are trackers of the set that name this one as their parent. */
    ghost predicate Owns(trackers: set<Tracker>)
      reads `children
    {
      forall i :: 0 <= i < |children| ==> children[i] in trackers && children[i].parent == this
    }

    /** All trackers above this one are executing children. */
    ghost predicate UnderExecuting()
      reads above`runState
    {
      forall a :: a in above ==> a.runState == ExecutingChildren
    }

    ghost predicate IsNew(id: NameAndLocation, ctx: TrackerContext, parent: Tracker?, section: Section)
      reads this
    {
      && this.id == id && this.ctx == ctx && this.parent == parent && this.section == section
      && Chained() && children == [] && done == 0
    }

    /** Child number i, if there is one, is the only one of that name and location. */
    ghost predicate OnlyAt(id: NameAndLocation, i: nat)
      reads `children
    {
      forall j :: 0 <= j < |children| ==> (children[j].id == id <==> j == i)
    }

    ghost function ChildAt(i: nat): set<Tracker>
      reads `children
    {
      if i < |children| then {children[i]} else {}
    }

    // ---------- Queries ----------

    predicate IsComplete()
      reads this
    {
      runState == CompletedSuccessfully || runState == Failed
    }

    predicate IsSuccessfullyCompleted()
      reads this
    {
      runState == CompletedSuccessfully
    }

    predicate IsOpen()
      reads this
    {
      runState != NotStarted && !IsComplete()
    }

    /** The first child with that name and location, as std::find_if finds it. */
    method FindChild(id: NameAndLocation) returns (child: Tracker?)
      ensures child == null ==> forall c :: c in children ==> c.id != id
      ensures child != null ==> exists i ::
        0 <= i < |children| && children[i] == child && child.id == id && forall j :: 0 <= j < i ==> children[j].id != id
    {
      for i := 0 to |children|
        invariant forall j :: 0 <= j < i ==> children[j].id != id
      {
        if children[i].id == id {
          return children[i];
        }
      }
      return null;
    }

    // ---------- Actions ----------

    method AddChild(child: Tracker)
      modifies `children
      ensures children == old(children) + [child]
    {
      children := children + [child];
    }

    /** Marks this tracker, and the ones above it up to the first already marked, as executing children. */
    method OpenChild()
      requires Chained()
      modifies this`runState, above`runState
      ensures runState == ExecutingChildren
      ensures old(runState) != ExecutingChildren && parent != null ==> parent.runState == ExecutingChildren
      ensures old(UnderExecuting()) ==> UnderExecuting()
      decreases depth
    {
      if runState != ExecutingChildren {
        runState := ExecutingChildren;
        if parent != null {
          parent.OpenChild();
        }
      }
    }

    method TryOpen()
      requires Chained()
      modifies ctx`currentTracker, this`runState, above`runState
      ensures if old(IsComplete()) then
                ctx.currentTracker == old(ctx.currentTracker) && runState == old(runState)
                && (parent != null ==> parent.runState == old(parent.runState))
              else
                ctx.currentTracker == this && runState == Executing
                && (parent != null ==> parent.runState == ExecutingChildren)
      ensures parent != null && old(parent.UnderExecuting()) ==> parent.UnderExecuting()
    {
      if !IsComplete() {
        Open();
      }
    }

    method Open()
      requires Chained()
      modifies ctx`currentTracker, this`runState, above`runState
      ensures ctx.currentTracker == this && runState == Executing
      ensures parent != null ==> parent.runState == ExecutingChildren
      ensures parent != null && old(parent.UnderExecuting()) ==> parent.UnderExecuting()
    {
      runState := Executing;
      ctx.currentTracker := this;
      if parent != null {
        parent.OpenChild();
      }
    }

    /**
     Leaves the tracker, which is the current one: complete if it ran no children, or if the last of
     its children is complete. `thrown` is the "Illogical state" error.
     */
    method Close() returns (thrown: bool)
      requires parent != null && ctx.currentTracker == this
      modifies `runState, ctx`currentTracker, ctx`runState
      ensures thrown <==> old(runState) in {NotStarted, CompletedSuccessfully, Failed}
      ensures !thrown ==> ctx.currentTracker == parent && ctx.HasCompletedCycle()
      ensures !thrown ==>
                var lastDone := children == [] || old(children[|children| - 1].IsComplete());
                runState == (if old(runState) == Executing || (old(runState) == ExecutingChildren && lastDone)
                             then CompletedSuccessfully else old(runState))
      ensures thrown ==> runState == old(runState)
    {
      match runState {
        case NotStarted | CompletedSuccessfully | Failed =>
          return true;
        case NeedsAnotherRun =>
        case Executing =>
          runState := CompletedSuccessfully;
        case ExecutingChildren =>
          if children == [] || children[|children| - 1].IsComplete() {
            runState := CompletedSuccessfully;
          }
      }
      ctx.currentTracker := parent;
      ctx.CompleteCycle();
      return false;
    }
  }
}
