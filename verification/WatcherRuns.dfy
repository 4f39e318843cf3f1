/**
 The directory watcher over whole runs of calls, each with any of the output vectors and on any listing: what
 an index holds then, and what is reported against it, said by names and times alone.
 */
module WatcherRuns {
  import opened Wrappers
  import opened DirectoryWatcher

  /** A call, and the listing that it finds. */
  datatype Visit = Visit(asked: Asked, directoryChanged: bool, files: seq<File>) {
    predicate Compares() { asked.changed || directoryChanged }
  }

  // ---------- One call ----------

  /** The index after a call, name by name. */
  ghost predicate TurnsInto(known: Index, v: Visit, now: Index) {
    if !v.Compares() then now == known
    else
      && (forall n :: n in now <==> IsKept(known, v, n) || (v.asked.news && n in Listed(v.files)))
      && (forall n :: n in now ==>
            if n in known && !(v.asked.changed && n in Listed(v.files)) then now[n] == known[n]
            else n in Listed(v.files) && now[n] == Listed(v.files)[n])
  }

  predicate IsKept(known: Index, v: Visit, n: string) {
    n in known && (v.asked.removed ==> n in Listed(v.files))
  }

  /** The report of a call, name by name. */
  ghost predicate Tells(known: Index, v: Visit, report: Report) {
    && (forall n :: n in report.news <==> v.Compares() && v.asked.news && n in Listed(v.files) && n !in known)
    && (forall n :: n in report.changed <==>
          v.asked.changed && n in known && n in Listed(v.files) && known[n] != Listed(v.files)[n])
    && (forall n :: n in report.removed <==> v.Compares() && v.asked.removed && n in known && n !in Listed(v.files))
  }

  lemma {:induction false} AllSeenAt(known: Index, files: seq<File>, asked: Asked, n: string)
    requires Distinct(files)
    ensures var all, listed := AllSeen(known, files, asked), Listed(files);
            && (n in all <==> n in known || (asked.news && n in listed))
            && (n in all ==>
                  if n in known && !(asked.changed && n in listed) then all[n] == known[n]
                  else n in listed && all[n] == listed[n])
  {
    if files != [] {
      var init, f := files[..|files| - 1], files[|files| - 1];
      AllSeenAt(known, init, asked, n);
      ListedAt(init);
      assert f.name !in Names(init);
    }
  }

  lemma UpdatedTurns(known: Index, v: Visit)
    requires Distinct(v.files)
    ensures v.Compares() ==> TurnsInto(known, v, Updated(known, v.files, v.asked))
  {
    ListedAt(v.files);
    forall n
      ensures var all, listed := AllSeen(known, v.files, v.asked), Listed(v.files);
              && (n in all <==> n in known || (v.asked.news && n in listed))
              && (n in all ==>
                    if n in known && !(v.asked.changed && n in listed) then all[n] == known[n]
                    else n in listed && all[n] == listed[n])
    {
      AllSeenAt(known, v.files, v.asked, n);
    }
  }

  /** A call on the watcher, where no hashes collide. */
  method Call(w: Watcher, v: Visit) returns (report: Report)
    requires w.Valid() && Distinct(v.files) && Apart(w.hash, w.Known().Keys + Names(v.files))
    modifies w
    ensures w.Valid() && TurnsInto(old(w.Known()), v, w.Known()) && Tells(old(w.Known()), v, report)
  {
    ghost var known := w.Known();
    report := w.GetChanges(v.asked, v.directoryChanged, v.files);
    UpdatedTurns(known, v);
    NewNamesAre(known, v.files);
    ChangedNamesAre(known, v.files);
    ListedAt(v.files);
  }

  // ---------- Runs of calls ----------

  /** The indices between the calls of a run. */
  ghost predicate IsRun(indices: seq<Index>, visits: seq<Visit>) {
    |indices| == |visits| + 1 && forall k :: 0 <= k < |visits| ==> TurnsInto(indices[k], visits[k], indices[k + 1])
  }

  /** The call asks for changed files and lists the name, or makes it known: the time listed is taken over. */
  predicate TakesTime(known: Index, v: Visit, n: string) {
    n in Listed(v.files) && (v.asked.changed || (v.Compares() && v.asked.news && n !in known))
  }

  /** No call from number j on takes over a time for the name. */
  ghost predicate TakesNone(indices: seq<Index>, visits: seq<Visit>, j: nat, n: string)
    requires IsRun(indices, visits)
  {
    forall k :: j <= k < |visits| ==> !TakesTime(indices[k], visits[k], n)
  }

  /** Over calls that take over no time for it, a name that is known at the end was known all along, with its time. */
  lemma {:induction false} TimeStays(indices: seq<Index>, visits: seq<Visit>, j: nat, n: string)
    requires IsRun(indices, visits) && j <= |visits| && TakesNone(indices, visits, j, n)
    requires n in indices[|visits|]
    ensures n in indices[j] && indices[j][n] == indices[|visits|][n]
    decreases |visits| - j
  {
    if j < |visits| {
      TimeStays(indices, visits, j + 1, n);
      assert TurnsInto(indices[j], visits[j], indices[j + 1]) && !TakesTime(indices[j], visits[j], n);
    }
  }

  /**
   Whatever the calls of a run ask for: a name that is known at its end is then reported as changed exactly if
   it is listed with another time than at the last call that asked for changed files, or made it known.
   */
  lemma ChangedSinceIff(indices: seq<Index>, visits: seq<Visit>, n: string, j: nat, files: seq<File>)
    requires IsRun(indices, visits) && n in indices[|visits|] && Distinct(files)
    requires j < |visits| && TakesTime(indices[j], visits[j], n) && TakesNone(indices, visits, j + 1, n)
    ensures n in ChangedNames(indices[|visits|], files)
            <==> n in Listed(files) && Listed(files)[n] != Listed(visits[j].files)[n]
  {
    TimeStays(indices, visits, j + 1, n);
    assert TurnsInto(indices[j], visits[j], indices[j + 1]);
    ChangedNamesAre(indices[|visits|], files);
  }

  /** And where there was no such call, with another time than at the beginning of the run. */
  lemma ChangedSinceStartIff(indices: seq<Index>, visits: seq<Visit>, n: string, files: seq<File>)
    requires IsRun(indices, visits) && n in indices[|visits|] && Distinct(files)
    requires TakesNone(indices, visits, 0, n)
    ensures n in indices[0]
    ensures n in ChangedNames(indices[|visits|], files) <==> n in Listed(files) && Listed(files)[n] != indices[0][n]
  {
    TimeStays(indices, visits, 0, n);
    ChangedNamesAre(indices[|visits|], files);
  }

  /** The calls list different names, none of which have the same hash, also as those in the index. */
  ghost predicate MayVisit(w: Watcher, visits: seq<Visit>, names: set<string>)
    reads w
  {
    && w.Valid() && Apart(w.hash, names) && w.Known().Keys <= names
    && forall k :: 0 <= k < |visits| ==> Distinct(visits[k].files) && Names(visits[k].files) <= names
  }

  ghost predicate AllTell(indices: seq<Index>, visits: seq<Visit>, reports: seq<Report>)
    requires IsRun(indices, visits)
  {
    |reports| == |visits| && forall k :: 0 <= k < |visits| ==> Tells(indices[k], visits[k], reports[k])
  }

  /** Both, handed on whole; Look(0) takes it apart. */
  ghost predicate IsToldRun(indices: seq<Index>, visits: seq<Visit>, reports: seq<Report>) {
    forall key {:trigger Look(key)} :: Look(key) ==> IsRun(indices, visits) && AllTell(indices, visits, reports)
  }

  lemma OneMore(indices: seq<Index>, visits: seq<Visit>, reports: seq<Report>, i: nat, now: Index, report: Report)
    requires i < |visits| && |indices| == i + 1 && IsToldRun(indices, visits[..i], reports)
    requires TurnsInto(indices[i], visits[i], now) && Tells(indices[i], visits[i], report)
    ensures IsToldRun(indices + [now], visits[..i + 1], reports + [report])
  {
    assert Look(0);
  }

  /** One call of a run. */
  method CallInRun(w: Watcher, visits: seq<Visit>, i: nat, ghost names: set<string>) returns (report: Report)
    requires MayVisit(w, visits, names) && i < |visits|
    modifies w
    ensures MayVisit(w, visits, names)
    ensures TurnsInto(old(w.Known()), visits[i], w.Known()) && Tells(old(w.Known()), visits[i], report)
  {
    ListedAt(visits[i].files);
    report := Call(w, visits[i]);
  }

  /** A run of calls on the watcher. */
  method Calls(w: Watcher, visits: seq<Visit>, ghost names: set<string>)
    returns (reports: seq<Report>, ghost indices: seq<Index>)
    requires MayVisit(w, visits, names)
    modifies w
    ensures w.Valid() && IsRun(indices, visits) && AllTell(indices, visits, reports)
    ensures indices[0] == old(w.Known()) && indices[|visits|] == w.Known()
  {
    reports, indices := [], [w.Known()];
    for i := 0 to |visits|
      invariant MayVisit(w, visits, names)
      invariant |indices| == i + 1 && IsToldRun(indices, visits[..i], reports)
      invariant indices[0] == old(w.Known()) && indices[i] == w.Known()
    {
      var report := CallInRun(w, visits, i, names);
      OneMore(indices, visits, reports, i, w.Known(), report);
      reports, indices := reports + [report], indices + [w.Known()];
    }
    assert visits[..|visits|] == visits && Look(0);
  }

  // ---------- The order of reports ----------

  /** Names are reported in the order of the listing. */
  lemma {:induction false} ReportsInOrder(known: Index, x: seq<File>, y: seq<File>)
    ensures NewNames(known, x + y) == NewNames(known, x) + NewNames(known, y)
    ensures ChangedNames(known, x + y) == ChangedNames(known, x) + ChangedNames(known, y)
    decreases |y|
  {
    if y == [] {
      assert x + y == x;
    } else {
      var init := y[..|y| - 1];
      assert (x + y)[..|x + y| - 1] == x + init;
      ReportsInOrder(known, x, init);
    }
  }
}
