/**
 The directory watcher of src/file/FileName.cpp: an index of the entries of a directory, keyed by a
 hash of their names, which `get_changes` brings up to date against a new listing while it reports the
 differences. The listing, the modification times and whether the directory counts as changed come
 from outside.
 */
module DirectoryWatcher {
  /** A directory entry as it is listed. */
  datatype File = File(name: string, time: int)

  datatype Entry = Entry(name: string, time: int, removed: bool)

  /** Which of the three output vectors the caller gives. */
  datatype Asked = Asked(news: bool, changed: bool, removed: bool)

  datatype Report = Report(news: seq<string>, changed: seq<string>, removed: seq<string>)

  type Index = map<string, int>

  predicate Distinct(files: seq<File>) {
    forall i, j :: 0 <= i < j < |files| ==> files[i].name != files[j].name
  }

  function Names(files: seq<File>): set<string> {
    set i | 0 <= i < |files| :: files[i].name
  }

  // ---------- What a call does to the index ----------

  /** One listed entry: a known one is updated and a new one added, each if asked for. */
  function Seen(known: Index, f: File, asked: Asked): Index {
    if f.name in known then if asked.changed then known[f.name := f.time] else known
    else if asked.news then known[f.name := f.time] else known
  }

  function AllSeen(known: Index, files: seq<File>, asked: Asked): Index {
    if files == [] then known else Seen(AllSeen(known, files[..|files| - 1], asked), files[|files| - 1], asked)
  }

  /** The index after a call; entries that are not listed go if that is asked for. */
  function Updated(known: Index, files: seq<File>, asked: Asked): Index {
    var all := AllSeen(known, files, asked);
    if asked.removed then map n | n in all && n in Names(files) :: all[n] else all
  }

  /** The new names, in the order of the listing. */
  function NewNames(known: Index, files: seq<File>): seq<string> {
    if files == [] then []
    else
      var f := files[|files| - 1];
      NewNames(known, files[..|files| - 1]) + if f.name in known then [] else [f.name]
  }

  function ChangedNames(known: Index, files: seq<File>): seq<string> {
    if files == [] then []
    else
      var f := files[|files| - 1];
      ChangedNames(known, files[..|files| - 1]) + if f.name in known && known[f.name] != f.time then [f.name] else []
  }

  /** The index of a listing. */
  function Listed(files: seq<File>): Index {
    if files == [] then map[] else Listed(files[..|files| - 1])[files[|files| - 1].name := files[|files| - 1].time]
  }

  const ALL: Asked := Asked(true, true, true)

  lemma {:induction false} ListedAt(files: seq<File>)
    requires Distinct(files)
    ensures Listed(files).Keys == Names(files)
    ensures forall i :: 0 <= i < |files| ==>
              files[i].name in Listed(files) && Listed(files)[files[i].name] == files[i].time
  {
    if files != [] {
      var init := files[..|files| - 1];
      ListedAt(init);
      assert forall i :: 0 <= i < |init| ==> files[i] == init[i];
      assert Names(files) == Names(init) + {files[|files| - 1].name};
    }
  }

  lemma {:induction false} AllSeenIs(known: Index, files: seq<File>)
    requires Distinct(files)
    ensures AllSeen(known, files, ALL).Keys == known.Keys + Names(files)
    ensures forall n :: n in AllSeen(known, files, ALL) ==>
              if n in Listed(files) then AllSeen(known, files, ALL)[n] == Listed(files)[n]
              else n in known && AllSeen(known, files, ALL)[n] == known[n]
  {
    ListedAt(files);
    if files != [] {
      var init := files[..|files| - 1];
      AllSeenIs(known, init);
      ListedAt(init);
      assert Names(files) == Names(init) + {files[|files| - 1].name};
    }
  }

  /** With all three vectors given, the index is the listing afterwards, whatever it was before. */
  lemma UpdatedIsListing(known: Index, files: seq<File>)
    requires Distinct(files)
    ensures Updated(known, files, ALL) == Listed(files)
  {
    AllSeenIs(known, files);
    ListedAt(files);
  }

  /** The new names are those listed but not known, each once. */
  lemma {:induction false} NewNamesAre(known: Index, files: seq<File>)
    requires Distinct(files)
    ensures forall n :: n in NewNames(known, files) <==> n in Names(files) && n !in known
    ensures forall i, j :: 0 <= i < j < |NewNames(known, files)| ==>
              NewNames(known, files)[i] != NewNames(known, files)[j]
  {
    if files != [] {
      var init, f := files[..|files| - 1], files[|files| - 1];
      NewNamesAre(known, init);
      assert Names(files) == Names(init) + {f.name};
      assert f.name !in Names(init);
    }
  }

  /** The changed names are those listed and known with another time, each once. */
  lemma {:induction false} ChangedNamesAre(known: Index, files: seq<File>)
    requires Distinct(files)
    ensures forall n :: n in ChangedNames(known, files) <==>
              n in known && n in Listed(files) && known[n] != Listed(files)[n]
    ensures forall i, j :: 0 <= i < j < |ChangedNames(known, files)| ==>
              ChangedNames(known, files)[i] != ChangedNames(known, files)[j]
  {
    if files != [] {
      var init, f := files[..|files| - 1], files[|files| - 1];
      ChangedNamesAre(known, init);
      ListedAt(init);
      assert f.name !in Names(init);
    }
  }

  /** The removed names are those known but not listed, in some order, each once. */
  ghost predicate AreRemoved(removed: seq<string>, known: Index, files: seq<File>) {
    && (forall n :: n in removed <==> n in known && n !in Names(files))
    && (forall i, j :: 0 <= i < j < |removed| ==> removed[i] != removed[j])
  }

  // ---------- Runs ----------

  /** A call with all three vectors, and what it reported. */
  datatype Call = Call(files: seq<File>, report: Report)

  function Elements(s: seq<string>): set<string> {
    set n | n in s
  }

  /** The report is the one that GetChanges gives. */
  ghost predicate Reported(known: Index, c: Call) {
    && Distinct(c.files)
    && c.report.news == NewNames(known, c.files) && c.report.changed == ChangedNames(known, c.files)
    && AreRemoved(c.report.removed, known, c.files)
  }

  ghost predicate ReportedRun(known: Index, calls: seq<Call>)
    decreases |calls|
  {
    calls == [] || (Reported(known, calls[0]) && ReportedRun(Updated(known, calls[0].files, ALL), calls[1..]))
  }

  /** A client that only goes by the reports, and asks for the times of the names in them. */
  function Followed(m: Index, c: Call): Index {
    map n | n in (m.Keys - Elements(c.report.removed)) + (Elements(c.report.news) + Elements(c.report.changed)) ::
      if (n in c.report.news || n in c.report.changed) && n in Listed(c.files) then Listed(c.files)[n]
      else if n in m then m[n] else 0
  }

  function FollowedRun(m: Index, calls: seq<Call>): Index
    decreases |calls|
  {
    if calls == [] then m else FollowedRun(Followed(m, calls[0]), calls[1..])
  }

  lemma FollowedIsListing(known: Index, c: Call)
    requires Reported(known, c)
    ensures Followed(known, c) == Updated(known, c.files, ALL) == Listed(c.files)
  {
    UpdatedIsListing(known, c.files);
    NewNamesAre(known, c.files);
    ChangedNamesAre(known, c.files);
    ListedAt(c.files);
    var m, l := Followed(known, c), Listed(c.files);
    assert m.Keys == l.Keys;
    assert forall n :: n in l ==> m[n] == l[n];
  }

  /** Over any run, following the reports gives what the last listing shows. */
  lemma {:induction false} FollowingIsListing(known: Index, calls: seq<Call>)
    requires ReportedRun(known, calls)
    ensures FollowedRun(known, calls) == if calls == [] then known else Listed(calls[|calls| - 1].files)
    decreases |calls|
  {
    if calls != [] {
      FollowedIsListing(known, calls[0]);
      FollowingIsListing(Updated(known, calls[0].files, ALL), calls[1..]);
    }
  }

  /** What is not listed is left as it was. */
  lemma {:induction false} SeenBefore(known: Index, files: seq<File>, asked: Asked, n: string)
    requires forall i :: 0 <= i < |files| ==> files[i].name != n
    ensures n in AllSeen(known, files, asked) <==> n in known
    ensures n in known ==> AllSeen(known, files, asked)[n] == known[n]
  {
    if files != [] {
      SeenBefore(known, files[..|files| - 1], asked, n);
    }
  }

  lemma {:induction false} SeenKeys(known: Index, files: seq<File>, asked: Asked)
    ensures known.Keys <= AllSeen(known, files, asked).Keys <= known.Keys + Names(files)
  {
    if files != [] {
      var init := files[..|files| - 1];
      SeenKeys(known, init, asked);
      assert Names(files) == Names(init) + {files[|files| - 1].name};
    }
  }

  // ---------- The entries ----------

  /** The entries under the hashes of their names. */
  type Entries = map<nat, Entry>

  predicate Keyed(hash: string -> nat, es: Entries) {
    forall k :: k in es ==> hash(es[k].name) == k
  }

  /** What the entries say: the times of their names. */
  function IndexOf(hash: string -> nat, es: Entries): Index
    requires Keyed(hash, es)
  {
    map k | k in es :: es[k].name := es[k].time
  }

  predicate Knows(hash: string -> nat, es: Entries, n: string) {
    hash(n) in es && es[hash(n)].name == n
  }

  lemma IndexHas(hash: string -> nat, es: Entries, n: string)
    requires Keyed(hash, es)
    ensures n in IndexOf(hash, es) <==> Knows(hash, es, n)
    ensures Knows(hash, es, n) ==> IndexOf(hash, es)[n] == es[hash(n)].time
  {
    if n in IndexOf(hash, es) {
      var k :| k in es && es[k].name == n;
    }
    if Knows(hash, es, n) {
      assert hash(n) in es && es[hash(n)].name == n;
    }
  }

  /** No two of the names have the same hash. */
  predicate Apart(hash: string -> nat, names: set<string>) {
    forall m, n :: m in names && n in names && hash(m) == hash(n) ==> m == n
  }

  /** The entry for a listed file, or a new one, if asked for; a name under the same hash passes for the file. */
  function SeenEntry(hash: string -> nat, es: Entries, f: File, asked: Asked): Entries {
    var k := hash(f.name);
    if k in es then es[k := Entry(es[k].name, if asked.changed then f.time else es[k].time, false)]
    else if asked.news then es[k := Entry(f.name, f.time, false)] else es
  }

  function SeenEntries(hash: string -> nat, es: Entries, files: seq<File>, asked: Asked): Entries {
    if files == [] then es
    else SeenEntry(hash, SeenEntries(hash, es, files[..|files| - 1], asked), files[|files| - 1], asked)
  }

  /** The names reported as new and as changed. */
  function NewsOf(hash: string -> nat, es: Entries, files: seq<File>, asked: Asked): seq<string> {
    if files == [] then []
    else
      var init, f := files[..|files| - 1], files[|files| - 1];
      NewsOf(hash, es, init, asked)
      + if asked.news && hash(f.name) !in SeenEntries(hash, es, init, asked) then [f.name] else []
  }

  function ChangedOf(hash: string -> nat, es: Entries, files: seq<File>, asked: Asked): seq<string> {
    if files == [] then []
    else
      var init, f := files[..|files| - 1], files[|files| - 1];
      var now := SeenEntries(hash, es, init, asked);
      ChangedOf(hash, es, init, asked)
      + if asked.changed && hash(f.name) in now && now[hash(f.name)].time != f.time then [now[hash(f.name)].name]
        else []
  }

  function AllMarked(es: Entries): Entries {
    map k | k in es :: es[k].(removed := true)
  }

  function Unmarked(es: Entries): Entries {
    map k | k in es && !es[k].removed :: es[k]
  }

  /** The names of the marked entries, in some order, each once. */
  ghost predicate AreMarked(removed: seq<string>, hash: string -> nat, es: Entries) {
    && (forall n :: n in removed <==> Knows(hash, es, n) && es[hash(n)].removed)
    && (forall i, j :: 0 <= i < j < |removed| ==> removed[i] != removed[j])
  }

  /** The entries after the listing has been gone through. */
  function Compared(hash: string -> nat, es: Entries, files: seq<File>, asked: Asked): Entries {
    SeenEntries(hash, if asked.removed then AllMarked(es) else es, files, asked)
  }

  // ---------- Where hashes do not collide ----------

  lemma SeenEntryAgrees(hash: string -> nat, es: Entries, f: File, asked: Asked, names: set<string>)
    requires Keyed(hash, es) && Apart(hash, names) && IndexOf(hash, es).Keys <= names && f.name in names
    ensures Keyed(hash, SeenEntry(hash, es, f, asked))
    ensures IndexOf(hash, SeenEntry(hash, es, f, asked)) == Seen(IndexOf(hash, es), f, asked)
  {
    var es', index := SeenEntry(hash, es, f, asked), Seen(IndexOf(hash, es), f, asked);
    SeenEntryKeyed(hash, es, f, asked);
    forall n
      ensures n in IndexOf(hash, es') <==> n in index
      ensures n in index ==> IndexOf(hash, es')[n] == index[n]
    {
      SeenEntryAt(hash, es, f, asked, names, n);
    }
  }

  lemma SeenEntryKeyed(hash: string -> nat, es: Entries, f: File, asked: Asked)
    requires Keyed(hash, es)
    ensures Keyed(hash, SeenEntry(hash, es, f, asked))
  {
  }

  lemma SeenEntryAt(hash: string -> nat, es: Entries, f: File, asked: Asked, names: set<string>, n: string)
    requires Keyed(hash, es) && Apart(hash, names) && IndexOf(hash, es).Keys <= names && f.name in names
    requires Keyed(hash, SeenEntry(hash, es, f, asked))
    ensures var index, index' := Seen(IndexOf(hash, es), f, asked), IndexOf(hash, SeenEntry(hash, es, f, asked));
            (n in index' <==> n in index) && (n in index ==> index'[n] == index[n])
  {
    SameHash(hash, es, f.name, names);
    IndexHas(hash, es, n);
    IndexHas(hash, SeenEntry(hash, es, f, asked), n);
  }

  lemma SameHash(hash: string -> nat, es: Entries, n: string, names: set<string>)
    requires Keyed(hash, es) && Apart(hash, names) && IndexOf(hash, es).Keys <= names && n in names
    ensures hash(n) in es <==> n in IndexOf(hash, es)
    ensures hash(n) in es ==> es[hash(n)].name == n && es[hash(n)].time == IndexOf(hash, es)[n]
  {
    IndexHas(hash, es, n);
    if hash(n) in es {
      IndexHas(hash, es, es[hash(n)].name);
    }
  }

  predicate AllIn(files: seq<File>, names: set<string>) {
    forall i :: 0 <= i < |files| ==> files[i].name in names
  }

  lemma {:induction false} SeenKeysIn(known: Index, files: seq<File>, asked: Asked, names: set<string>)
    requires known.Keys <= names && AllIn(files, names)
    ensures AllSeen(known, files, asked).Keys <= names
  {
    if files != [] {
      SeenKeysIn(known, files[..|files| - 1], asked, names);
    }
  }

  lemma {:induction false} SeenIndexAgrees(hash: string -> nat, es: Entries, files: seq<File>, asked: Asked,
                                           names: set<string>)
    requires Keyed(hash, es) && Apart(hash, names) && IndexOf(hash, es).Keys <= names && AllIn(files, names)
    ensures Keyed(hash, SeenEntries(hash, es, files, asked))
    ensures IndexOf(hash, SeenEntries(hash, es, files, asked)) == AllSeen(IndexOf(hash, es), files, asked)
  {
    if files != [] {
      var init, f := files[..|files| - 1], files[|files| - 1];
      SeenIndexAgrees(hash, es, init, asked, names);
      SeenKeysIn(IndexOf(hash, es), init, asked, names);
      SeenEntryAgrees(hash, SeenEntries(hash, es, init, asked), f, asked, names);
    }
  }

  lemma {:induction false} SeenReportsAgree(hash: string -> nat, es: Entries, files: seq<File>, asked: Asked,
                                            names: set<string>)
    requires Keyed(hash, es) && Apart(hash, names) && IndexOf(hash, es).Keys <= names && AllIn(files, names)
    requires Distinct(files)
    ensures NewsOf(hash, es, files, asked) == if asked.news then NewNames(IndexOf(hash, es), files) else []
    ensures ChangedOf(hash, es, files, asked) == if asked.changed then ChangedNames(IndexOf(hash, es), files) else []
  {
    if files != [] {
      var init, f := files[..|files| - 1], files[|files| - 1];
      SeenReportsAgree(hash, es, init, asked, names);
      SeenIndexAgrees(hash, es, init, asked, names);
      SeenKeysIn(IndexOf(hash, es), init, asked, names);
      SeenBefore(IndexOf(hash, es), init, asked, f.name);
      NextAgrees(hash, SeenEntries(hash, es, init, asked), f.name, IndexOf(hash, es), names);
    }
  }

  /** A name that counts as it did at the beginning is found, or not, as it was in the index then. */
  lemma NextAgrees(hash: string -> nat, now: Entries, n: string, known: Index, names: set<string>)
    requires Keyed(hash, now) && Apart(hash, names) && IndexOf(hash, now).Keys <= names && n in names
    requires n in IndexOf(hash, now) <==> n in known
    requires n in known ==> IndexOf(hash, now)[n] == known[n]
    ensures hash(n) in now <==> n in known
    ensures hash(n) in now ==> now[hash(n)].name == n && now[hash(n)].time == known[n]
  {
    SameHash(hash, now, n, names);
  }

  lemma SeenEntriesAgree(hash: string -> nat, es: Entries, files: seq<File>, asked: Asked, names: set<string>)
    requires Keyed(hash, es) && Apart(hash, names) && IndexOf(hash, es).Keys + Names(files) <= names
    requires Distinct(files)
    ensures Keyed(hash, SeenEntries(hash, es, files, asked))
    ensures IndexOf(hash, SeenEntries(hash, es, files, asked)) == AllSeen(IndexOf(hash, es), files, asked)
    ensures NewsOf(hash, es, files, asked) == if asked.news then NewNames(IndexOf(hash, es), files) else []
    ensures ChangedOf(hash, es, files, asked) == if asked.changed then ChangedNames(IndexOf(hash, es), files) else []
  {
    assert forall i :: 0 <= i < |files| ==> files[i].name in Names(files);
    SeenIndexAgrees(hash, es, files, asked, names);
    SeenReportsAgree(hash, es, files, asked, names);
  }

  lemma MarkedIndex(hash: string -> nat, es: Entries)
    requires Keyed(hash, es)
    ensures Keyed(hash, AllMarked(es)) && IndexOf(hash, AllMarked(es)) == IndexOf(hash, es)
  {
    forall n
      ensures n in IndexOf(hash, AllMarked(es)) <==> n in IndexOf(hash, es)
      ensures n in IndexOf(hash, es) ==> IndexOf(hash, AllMarked(es))[n] == IndexOf(hash, es)[n]
    {
      IndexHas(hash, es, n);
      IndexHas(hash, AllMarked(es), n);
    }
  }

  /** The mark stays on the entries under whose hash nothing is listed. */
  lemma {:induction false} MarksAre(hash: string -> nat, es: Entries, files: seq<File>, asked: Asked, k: nat)
    ensures k in SeenEntries(hash, es, files, asked) ==>
              (SeenEntries(hash, es, files, asked)[k].removed
               <==> k in es && es[k].removed && forall i :: 0 <= i < |files| ==> hash(files[i].name) != k)
  {
    if files != [] {
      var init := files[..|files| - 1];
      MarksAre(hash, es, init, asked, k);
      assert forall i :: 0 <= i < |init| ==> files[i] == init[i];
    }
  }

  lemma {:induction false} SeenEntriesKeyed(hash: string -> nat, es: Entries, files: seq<File>, asked: Asked)
    requires Keyed(hash, es)
    ensures Keyed(hash, SeenEntries(hash, es, files, asked))
  {
    if files != [] {
      SeenEntriesKeyed(hash, es, files[..|files| - 1], asked);
    }
  }

  /** Known entries keep their names, and their times unless changes are asked for; new ones come only if asked for. */
  lemma {:induction false} SeenKeepsEntry(hash: string -> nat, es: Entries, files: seq<File>, asked: Asked, k: nat)
    ensures var now := SeenEntries(hash, es, files, asked);
            && (k in es ==> k in now && now[k].name == es[k].name && (asked.changed || now[k].time == es[k].time))
            && (k in now && k !in es ==> asked.news)
  {
    if files != [] {
      SeenKeepsEntry(hash, es, files[..|files| - 1], asked, k);
    }
  }

  /** Whatever the hashes: what was not asked for is not done to the index. */
  lemma OnlyWhatIsAsked(hash: string -> nat, es: Entries, files: seq<File>, asked: Asked, n: string)
    requires Keyed(hash, es) && NoMarks(es)
    ensures Keyed(hash, Unmarked(Compared(hash, es, files, asked)))
    ensures var known, now := IndexOf(hash, es), IndexOf(hash, Unmarked(Compared(hash, es, files, asked)));
            && (!asked.changed && n in known && n in now ==> now[n] == known[n])
            && (!asked.news && n in now ==> n in known)
            && (!asked.removed && n in known ==> n in now)
  {
    var before := if asked.removed then AllMarked(es) else es;
    var now := Compared(hash, es, files, asked);
    MarkedIndex(hash, es);
    SeenEntriesKeyed(hash, before, files, asked);
    SeenKeepsEntry(hash, before, files, asked, hash(n));
    IndexHas(hash, es, n);
    IndexHas(hash, Unmarked(now), n);
    if !asked.removed && n in IndexOf(hash, es) {
      MarksAre(hash, es, files, asked, hash(n));
    }
  }

  predicate NoMarks(es: Entries) {
    forall k :: k in es ==> !es[k].removed
  }

  /** Without collisions, the marked names are those that are known and not listed. */
  lemma MarkedAreRemoved(hash: string -> nat, es: Entries, files: seq<File>, asked: Asked, removed: seq<string>,
                         names: set<string>)
    requires Keyed(hash, es) && Apart(hash, names) && IndexOf(hash, es).Keys + Names(files) <= names
    requires Distinct(files) && asked.removed && AreMarked(removed, hash, Compared(hash, es, files, asked))
    ensures AreRemoved(removed, IndexOf(hash, es), files)
  {
    forall n
      ensures n in removed <==> n in IndexOf(hash, es) && n !in Names(files)
    {
      MarkOfName(hash, es, files, asked, n, names);
    }
  }

  lemma UnmarkedIsUpdated(hash: string -> nat, es: Entries, files: seq<File>, asked: Asked, names: set<string>)
    requires Keyed(hash, es) && Apart(hash, names) && IndexOf(hash, es).Keys + Names(files) <= names
    requires Distinct(files) && asked.removed
    ensures Keyed(hash, Unmarked(Compared(hash, es, files, asked)))
    ensures IndexOf(hash, Unmarked(Compared(hash, es, files, asked))) == Updated(IndexOf(hash, es), files, asked)
  {
    var now, known := Compared(hash, es, files, asked), IndexOf(hash, es);
    MarkedIndex(hash, es);
    SeenEntriesAgree(hash, AllMarked(es), files, asked, names);
    var index, updated := IndexOf(hash, Unmarked(now)), Updated(known, files, asked);
    forall n
      ensures n in index <==> n in updated
      ensures n in updated ==> index[n] == updated[n]
    {
      UnmarkedAt(hash, es, files, asked, names, n);
    }
  }

  lemma UnmarkedAt(hash: string -> nat, es: Entries, files: seq<File>, asked: Asked, names: set<string>, n: string)
    requires Keyed(hash, es) && Apart(hash, names) && IndexOf(hash, es).Keys + Names(files) <= names
    requires Distinct(files) && asked.removed
    requires var now := Compared(hash, es, files, asked);
             Keyed(hash, now) && IndexOf(hash, now) == AllSeen(IndexOf(hash, es), files, asked)
    ensures var index := IndexOf(hash, Unmarked(Compared(hash, es, files, asked)));
            var updated := Updated(IndexOf(hash, es), files, asked);
            (n in index <==> n in updated) && (n in updated ==> index[n] == updated[n])
  {
    var now := Compared(hash, es, files, asked);
    MarkOfName(hash, es, files, asked, n, names);
    IndexHas(hash, now, n);
    IndexHas(hash, Unmarked(now), n);
    SeenKeys(IndexOf(hash, es), files, asked);
  }

  lemma MarkOfName(hash: string -> nat, es: Entries, files: seq<File>, asked: Asked, n: string, names: set<string>)
    requires Keyed(hash, es) && Apart(hash, names) && IndexOf(hash, es).Keys + Names(files) <= names
    requires Distinct(files) && asked.removed
    ensures var now := Compared(hash, es, files, asked);
            && Keyed(hash, now)
            && (Knows(hash, now, n) ==> (now[hash(n)].removed <==> n in IndexOf(hash, es) && n !in Names(files)))
            && (n in IndexOf(hash, es) ==> Knows(hash, now, n))
  {
    var marked, now := AllMarked(es), Compared(hash, es, files, asked);
    MarkedIndex(hash, es);
    SeenEntriesAgree(hash, marked, files, asked, names);
    SeenKeys(IndexOf(hash, es), files, asked);
    MarksAre(hash, marked, files, asked, hash(n));
    IndexHas(hash, now, n);
    IndexHas(hash, es, n);
    IndexHas(hash, marked, n);
    if Knows(hash, now, n) {
      SameHash(hash, marked, n, names);
    }
  }

  /**
   The reports on a first listing are right, for every listing of these names, exactly when no two of them
   have the same hash.
   */
  lemma FirstReportsRightIff(hash: string -> nat, names: set<string>)
    ensures (forall files {:trigger Names(files)} :: Distinct(files) && Names(files) <= names ==>
               NewsOf(hash, map[], files, ALL) == NewNames(map[], files))
            <==> Apart(hash, names)
  {
    if Apart(hash, names) {
      forall files | Distinct(files) && Names(files) <= names
        ensures NewsOf(hash, map[], files, ALL) == NewNames(map[], files)
      {
        SeenEntriesAgree(hash, map[], files, ALL, names);
      }
    } else {
      var m, n :| m in names && n in names && hash(m) == hash(n) && m != n;
      var files := [File(m, 0), File(n, 0)];
      SecondIsLost(hash, m, n, files);
      assert Names(files) <= names;
    }
  }

  /** Of two names with the same hash the second is not reported, nor taken into the index. */
  lemma SecondIsLost(hash: string -> nat, m: string, n: string, files: seq<File>)
    requires m != n && hash(m) == hash(n) && files == [File(m, 0), File(n, 0)]
    ensures NewsOf(hash, map[], files, ALL) == [m] && NewNames(map[], files) == [m, n]
    ensures !Knows(hash, SeenEntries(hash, map[], files, ALL), n)
  {
    var one := files[..1];
    assert one == [File(m, 0)] && one[..0] == [] && files[..|files| - 1] == one;
    assert SeenEntries(hash, map[], one, ALL) == map[hash(m) := Entry(m, 0, false)];
    assert NewsOf(hash, map[], one, ALL) == [m] && NewNames(map[], one) == [m];
  }

  /** A listed name under the hash of a known one passes for that: its time is kept, and the known name reported. */
  lemma PassesForKnown(hash: string -> nat, m: string, n: string, t: int, u: int)
    requires hash(m) == hash(n) && t != u
    ensures var known, files := map[hash(m) := Entry(m, t, false)], [File(n, u)];
            && SeenEntries(hash, known, files, ALL) == map[hash(m) := Entry(m, u, false)]
            && NewsOf(hash, known, files, ALL) == [] && ChangedOf(hash, known, files, ALL) == [m]
  {
    var known, files := map[hash(m) := Entry(m, t, false)], [File(n, u)];
    assert files[..0] == [] && SeenEntries(hash, known, [], ALL) == known;
  }

  // ---------- The watcher ----------

  class Watcher {
    const hash: string -> nat
    var entries: Entries

    ghost predicate Valid()
      reads this
    {
      Keyed(hash, entries) && NoMarks(entries)
    }

    /** The index that the entries stand for. */
    ghost function Known(): Index
      requires Valid()
      reads this
    {
      IndexOf(hash, entries)
    }

    /** Remembers the listing when enumFirst is asked for; of names with the same hash, the last. */
    constructor (hash: string -> nat, enumFirst: bool, files: seq<File>)
      ensures Valid() && this.hash == hash && entries == if enumFirst then FirstEntries(hash, files) else map[]
      ensures !enumFirst ==> Known() == map[]
      ensures enumFirst && Distinct(files) && Apart(hash, Names(files)) ==> Known() == Listed(files)
    {
      this.hash := hash;
      entries := map[];
      new;
      if enumFirst {
        for i := 0 to |files|
          invariant this.hash == hash && entries == FirstEntries(hash, files[..i])
        {
          assert files[..i + 1][..i] == files[..i];
          entries := entries[hash(files[i].name) := Entry(files[i].name, files[i].time, false)];
        }
        assert files[..|files|] == files;
        FirstIndexKeyed(hash, files);
        if Distinct(files) && Apart(hash, Names(files)) {
          FirstIndexIs(hash, files);
        }
      }
    }

    /**
     Compares the entries with a listing. The comparison is made when changed files are asked for, and
     else when the directory counts as changed. Where no hashes collide, the index is then the updated one,
     and the report tells the differences.
     */
    method GetChanges(asked: Asked, directoryChanged: bool, files: seq<File>) returns (report: Report)
      requires Valid()
      modifies this`entries
      ensures Valid()
      ensures !asked.changed && !directoryChanged ==> entries == old(entries) && report == Report([], [], [])
      ensures asked.changed || directoryChanged ==>
                var before := if asked.removed then AllMarked(old(entries)) else old(entries);
                var now := SeenEntries(hash, before, files, asked);
                && entries == Unmarked(now)
                && report.news == NewsOf(hash, before, files, asked)
                && report.changed == ChangedOf(hash, before, files, asked)
                && AreMarked(report.removed, hash, now)
      ensures !asked.changed ==> forall n :: n in old(Known()) && n in Known() ==> Known()[n] == old(Known())[n]
      ensures !asked.news ==> Known().Keys <= old(Known()).Keys
      ensures !asked.removed ==> old(Known()).Keys <= Known().Keys
      ensures (asked.changed || directoryChanged) && Distinct(files)
              && Apart(hash, old(Known()).Keys + Names(files)) ==>
                && Known() == Updated(old(Known()), files, asked)
                && report.news == (if asked.news then NewNames(old(Known()), files) else [])
                && report.changed == (if asked.changed then ChangedNames(old(Known()), files) else [])
                && (if asked.removed then AreRemoved(report.removed, old(Known()), files) else report.removed == [])
      ensures asked == ALL && Distinct(files) && Apart(hash, old(Known()).Keys + Names(files)) ==>
                Reported(old(Known()), Call(files, report)) && Known() == Listed(files)
    {
      report := Report([], [], []);
      if asked.changed || directoryChanged {
        if asked.removed {
          MarkAll();
        }
        var news, changed := Enumerate(asked, files);
        var removed := [];
        ghost var now := entries;
        SeenEntriesKeyed(hash, if asked.removed then AllMarked(old(entries)) else old(entries), files, asked);
        if asked.removed {
          removed := EraseMarked();
        } else {
          StillNoMarks(hash, old(entries), files, asked);
        }
        report := Report(news, changed, removed);
        forall n
          ensures !asked.changed && n in old(Known()) && n in Known() ==> Known()[n] == old(Known())[n]
          ensures !asked.news && n in Known() ==> n in old(Known())
          ensures !asked.removed && n in old(Known()) ==> n in Known()
        {
          OnlyWhatIsAsked(hash, old(entries), files, asked, n);
        }
        if Distinct(files) && Apart(hash, old(Known()).Keys + Names(files)) {
          ReportAgrees(hash, old(entries), files, asked, report);
          UpdatedIsListing(old(Known()), files);
        }
      }
    }

    /** Marks every entry as removed. */
    method MarkAll()
      modifies this`entries
      ensures entries == AllMarked(old(entries))
    {
      var todo := entries.Keys;
      ghost var before := entries;
      while todo != {}
        invariant todo <= before.Keys == entries.Keys
        invariant forall k :: k in before ==> entries[k] == if k in todo then before[k] else before[k].(removed := true)
      {
        var k :| k in todo;
        entries := entries[k := entries[k].(removed := true)];
        todo := todo - {k};
      }
    }

    method Enumerate(asked: Asked, files: seq<File>) returns (news: seq<string>, changed: seq<string>)
      modifies this`entries
      ensures entries == SeenEntries(hash, old(entries), files, asked)
      ensures news == NewsOf(hash, old(entries), files, asked)
      ensures changed == ChangedOf(hash, old(entries), files, asked)
    {
      news, changed := [], [];
      for i := 0 to |files|
        invariant entries == SeenEntries(hash, old(entries), files[..i], asked)
        invariant news == NewsOf(hash, old(entries), files[..i], asked)
        invariant changed == ChangedOf(hash, old(entries), files[..i], asked)
      {
        assert files[..i + 1][..i] == files[..i];
        var isNew, isChanged, name := See(files[i], asked);
        news := news + if isNew then [name] else [];
        changed := changed + if isChanged then [name] else [];
      }
      assert files[..|files|] == files;
    }

    /** One entry of the listing. */
    method See(f: File, asked: Asked) returns (isNew: bool, isChanged: bool, name: string)
      modifies this`entries
      ensures entries == SeenEntry(hash, old(entries), f, asked)
      ensures isNew <==> asked.news && hash(f.name) !in old(entries)
      ensures isChanged <==> asked.changed && hash(f.name) in old(entries) && old(entries)[hash(f.name)].time != f.time
      ensures name == if hash(f.name) in old(entries) then old(entries)[hash(f.name)].name else f.name
    {
      isNew, isChanged, name := false, false, f.name;
      var hashFile := hash(f.name);
      if hashFile in entries {
        name := entries[hashFile].name;
        entries := entries[hashFile := entries[hashFile].(removed := false)];
        if asked.changed {
          if entries[hashFile].time != f.time {
            entries := entries[hashFile := entries[hashFile].(time := f.time)];
            isChanged := true;
          }
        }
      } else if asked.news {
        entries := entries[hashFile := Entry(f.name, f.time, false)];
        isNew := true;
      }
    }

    /** Takes the marked entries out. */
    method EraseMarked() returns (removed: seq<string>)
      requires Keyed(hash, entries)
      modifies this`entries
      ensures entries == Unmarked(old(entries)) && AreMarked(removed, hash, old(entries))
    {
      removed := [];
      var todo := entries.Keys;
      ghost var before := entries;
      while todo != {}
        invariant todo <= before.Keys
        invariant entries == map k | k in before && (k in todo || !before[k].removed) :: before[k]
        invariant forall n :: n in removed <==> Knows(hash, before, n) && before[hash(n)].removed && hash(n) !in todo
        invariant forall i, j :: 0 <= i < j < |removed| ==> removed[i] != removed[j]
      {
        var k :| k in todo;
        todo := todo - {k};
        if entries[k].removed {
          removed := removed + [entries[k].name];
          entries := entries - {k};
        }
      }
    }
  }

  // ---------- The constructor and the report ----------

  function FirstEntries(hash: string -> nat, files: seq<File>): Entries {
    if files == [] then map[]
    else
      var f := files[|files| - 1];
      FirstEntries(hash, files[..|files| - 1])[hash(f.name) := Entry(f.name, f.time, false)]
  }

  /** Of two names with the same hash the last is remembered. */
  lemma LastIsRemembered(hash: string -> nat, f: File, g: File)
    requires hash(f.name) == hash(g.name)
    ensures FirstEntries(hash, [f, g]) == map[hash(g.name) := Entry(g.name, g.time, false)]
  {
    assert [f, g][..1] == [f] && [f][..0] == [];
    assert FirstEntries(hash, [f]) == map[hash(f.name) := Entry(f.name, f.time, false)];
  }

  lemma {:induction false} FirstIndexKeyed(hash: string -> nat, files: seq<File>)
    ensures Keyed(hash, FirstEntries(hash, files)) && NoMarks(FirstEntries(hash, files))
  {
    if files != [] {
      FirstIndexKeyed(hash, files[..|files| - 1]);
    }
  }

  lemma {:induction false} FirstIndexIs(hash: string -> nat, files: seq<File>)
    requires Distinct(files) && Apart(hash, Names(files))
    ensures Keyed(hash, FirstEntries(hash, files)) && IndexOf(hash, FirstEntries(hash, files)) == Listed(files)
  {
    FirstIndexKeyed(hash, files);
    if files != [] {
      var init, f := files[..|files| - 1], files[|files| - 1];
      assert Names(files) == Names(init) + {f.name};
      FirstIndexIs(hash, init);
      ListedAt(init);
      var es, es' := FirstEntries(hash, init), FirstEntries(hash, files);
      SameHash(hash, es, f.name, Names(files));
      forall n
        ensures n in IndexOf(hash, es') <==> n in Listed(files)
        ensures n in Listed(files) ==> IndexOf(hash, es')[n] == Listed(files)[n]
      {
        IndexHas(hash, es, n);
        IndexHas(hash, es', n);
      }
    }
  }

  lemma StillNoMarks(hash: string -> nat, es: Entries, files: seq<File>, asked: Asked)
    requires NoMarks(es)
    ensures NoMarks(SeenEntries(hash, es, files, asked))
    ensures Unmarked(SeenEntries(hash, es, files, asked)) == SeenEntries(hash, es, files, asked)
    ensures AreMarked([], hash, SeenEntries(hash, es, files, asked))
  {
    forall k | k in SeenEntries(hash, es, files, asked)
      ensures !SeenEntries(hash, es, files, asked)[k].removed
    {
      MarksAre(hash, es, files, asked, k);
    }
  }

  lemma EmptyList(removed: seq<string>)
    ensures removed == [] || exists n :: n in removed
  {
    if removed != [] {
      assert removed[0] in removed;
    }
  }

  lemma ReportAgrees(hash: string -> nat, es: Entries, files: seq<File>, asked: Asked, report: Report)
    requires Keyed(hash, es) && NoMarks(es) && Distinct(files)
    requires Apart(hash, IndexOf(hash, es).Keys + Names(files))
    requires var before := if asked.removed then AllMarked(es) else es;
             && report.news == NewsOf(hash, before, files, asked)
             && report.changed == ChangedOf(hash, before, files, asked)
             && AreMarked(report.removed, hash, Compared(hash, es, files, asked))
    ensures Keyed(hash, Unmarked(Compared(hash, es, files, asked)))
    ensures var known := IndexOf(hash, es);
            && IndexOf(hash, Unmarked(Compared(hash, es, files, asked))) == Updated(known, files, asked)
            && report.news == (if asked.news then NewNames(known, files) else [])
            && report.changed == (if asked.changed then ChangedNames(known, files) else [])
            && (if asked.removed then AreRemoved(report.removed, known, files) else report.removed == [])
  {
    var names := IndexOf(hash, es).Keys + Names(files);
    MarkedIndex(hash, es);
    SeenEntriesAgree(hash, if asked.removed then AllMarked(es) else es, files, asked, names);
    if asked.removed {
      MarkedAreRemoved(hash, es, files, asked, report.removed, names);
      UnmarkedIsUpdated(hash, es, files, asked, names);
    } else {
      StillNoMarks(hash, es, files, asked);
      EmptyList(report.removed);
    }
  }
}
