/**
  The check of a build's output folders (`_output_exceeds`): a worklist over a directory forest that
  stops counting as soon as either limit is passed.

  The folders do not change during the check. An unreadable folder stands for an OSError of `scandir`,
  a vanished entry for one of `is_dir` or `stat`.
 */
module OutputLimit {
  datatype Entry = File(size: nat) | Vanished | Folder(readable: bool, entries: seq<Entry>)

  const OUTPUT_MAX_FILES := 10_000

  // --- A plain recursive count ---

  /** The bytes of an entry's files, at any depth. */
  function Size(e: Entry): nat {
    match e
    case File(size) => size
    case Vanished => 0
    case Folder(readable, entries) => if readable then SizeAll(entries) else 0
  }

  function SizeAll(entries: seq<Entry>): nat {
    if entries == [] then 0 else Size(entries[0]) + SizeAll(entries[1..])
  }

  /** The entries below an entry, at any depth, folders included. */
  function Below(e: Entry): nat {
    match e
    case Folder(true, entries) => CountAll(entries)
    case _ => 0
  }

  function CountAll(entries: seq<Entry>): nat {
    if entries == [] then 0 else 1 + Below(entries[0]) + CountAll(entries[1..])
  }

  /** The folders still to be scanned when these are pending. */
  function Scans(e: Entry): nat {
    match e
    case Folder(true, entries) => 1 + ScansAll(entries)
    case Folder(false, _) => 1
    case _ => 0
  }

  function ScansAll(entries: seq<Entry>): nat {
    if entries == [] then 0 else Scans(entries[0]) + ScansAll(entries[1..])
  }

  // --- The order in which the worklist visits the entries ---

  function Listing(e: Entry): seq<Entry> {
    match e
    case Folder(true, entries) => entries
    case _ => []
  }

  function Folders(entries: seq<Entry>): seq<Entry> {
    if entries == [] then [] else (if entries[0].Folder? then [entries[0]] else []) + Folders(entries[1..])
  }

  predicate AllFolders(entries: seq<Entry>) {
    forall e :: e in entries ==> e.Folder?
  }

  /** The folder that is popped, and what is pending once its entries were visited. */
  function Last(pending: seq<Entry>): Entry
    requires pending != []
  {
    pending[|pending| - 1]
  }

  function AfterPop(pending: seq<Entry>): seq<Entry>
    requires pending != []
  {
    pending[..|pending| - 1] + Folders(Listing(Last(pending)))
  }

  /** The entries of the folder added last, then those of its subfolders and of the folders added before. */
  function Visits(pending: seq<Entry>): seq<Entry>
    requires AllFolders(pending)
    decreases ScansAll(pending)
  {
    if pending == [] then []
    else
      PopScans(pending);
      Listing(Last(pending)) + Visits(AfterPop(pending))
  }

  lemma {:induction false} ScansConcat(a: seq<Entry>, b: seq<Entry>)
    ensures ScansAll(a + b) == ScansAll(a) + ScansAll(b)
    decreases |a|
  {
    if a == [] {
      assert a + b == b;
    } else {
      assert (a + b)[0] == a[0] && (a + b)[1..] == a[1..] + b;
      ScansConcat(a[1..], b);
    }
  }

  lemma {:induction false} ScansOfFolders(entries: seq<Entry>)
    ensures ScansAll(Folders(entries)) == ScansAll(entries) && AllFolders(Folders(entries))
    decreases |entries|
  {
    if entries != [] {
      ScansOfFolders(entries[1..]);
      ScansConcat(if entries[0].Folder? then [entries[0]] else [], Folders(entries[1..]));
    }
  }

  /** Scanning a folder leaves one folder less to scan: the loop ends. */
  lemma PopScans(pending: seq<Entry>)
    requires AllFolders(pending) && pending != []
    ensures AllFolders(AfterPop(pending)) && ScansAll(AfterPop(pending)) == ScansAll(pending) - 1
  {
    var last, rest := Last(pending), pending[..|pending| - 1];
    assert last in pending && [last][1..] == [];
    assert pending == rest + [last];
    ScansConcat(rest, [last]);
    ScansOfFolders(Listing(last));
    ScansConcat(rest, Folders(Listing(last)));
    assert ScansAll([last]) == Scans(last) == 1 + ScansAll(Listing(last));
  }

  // --- What the check decides ---

  /** The bytes a visited entry adds by itself. */
  function Bytes(visited: seq<Entry>): nat {
    if visited == [] then 0
        else Bytes(visited[..|visited| - 1]) + if visited[|visited| - 1].File? then visited[|visited| - 1].size else 0
  }

  /** The limits are looked at after every entry whose kind and size could be read. */
  predicate Checked(e: Entry) {
    !e.Vanished?
  }

  /** At some checked entry, what was visited up to it passes a limit. */
  ghost predicate Trips(visited: seq<Entry>, maxSize: nat) {
    visited != [] &&
    var n := |visited| - 1;
    Trips(visited[..n], maxSize) || (Checked(visited[n]) && (Bytes(visited) > maxSize || |visited| > OUTPUT_MAX_FILES))
  }

  method OutputExceeds(paths: seq<Entry>, maxSize: nat) returns (exceeds: bool)
    requires AllFolders(paths)
    ensures exceeds <==> Trips(Visits(paths), maxSize)
    ensures exceeds <==> SizeTotal(paths) > maxSize || LastChecked(Visits(paths)) > OUTPUT_MAX_FILES
  {
    TripsIff(Visits(paths), maxSize);
    BytesAreSize(paths);
    var size, files := 0, 0;
    var pending := paths;
    ghost var visited: seq<Entry> := [];
    assert [] + Visits(paths) == Visits(paths);
    while pending != []
      invariant AllFolders(pending) && visited + Visits(pending) == Visits(paths)
      invariant size == Bytes(visited) && files == |visited| && !Trips(visited, maxSize)
      decreases ScansAll(pending)
    {
      PopScans(pending);
      ghost var next := AfterPop(pending);
      var folder := Last(pending);
      Associate(visited, Listing(folder), Visits(next));
      pending := pending[..|pending| - 1];
      if !folder.readable {
        assert visited + [] == visited && pending + [] == pending;
        continue;
      }
      var exceeded;
      pending, size, files, exceeded := ScanEntries(folder.entries, pending, size, files, maxSize, visited);
      visited := visited + folder.entries;
      if exceeded {
        TripsEarly(visited, Visits(next), maxSize);
        return true;
      }
    }
    assert visited + [] == visited;
    return false;
  }

  lemma Associate(a: seq<Entry>, b: seq<Entry>, c: seq<Entry>)
    ensures a + (b + c) == (a + b) + c
  {
  }

  /** The entries of one folder. */
  method ScanEntries(entries: seq<Entry>, pending: seq<Entry>, size: nat, files: nat, maxSize: nat,
      ghost visited: seq<Entry>)
    returns (pending': seq<Entry>, size': nat, files': nat, exceeded: bool)
    requires size == Bytes(visited) && files == |visited| && !Trips(visited, maxSize)
    ensures exceeded <==> Trips(visited + entries, maxSize)
    ensures !exceeded ==>
              pending' == pending + Folders(entries) && size' == Bytes(visited + entries) &&
              files' == |visited + entries|
  {
    pending', size', files', exceeded := pending, size, files, false;
    ghost var seen := visited;
    assert visited + entries[..0] == visited && pending + Folders(entries[..0]) == pending;
    for i := 0 to |entries|
      invariant !exceeded && pending' == pending + Folders(entries[..i]) && seen == visited + entries[..i]
      invariant size' == Bytes(seen) && files' == |seen| && !Trips(seen, maxSize)
    {
      var entry := entries[i];
      TakeOne(visited, entries, i);
      TakeFolders(pending, entries, i);
      VisitOne(seen, entry, maxSize);
      seen := seen + [entry];
      files' := files' + 1;
      if entry.Vanished? {
        continue;
      }
      if entry.Folder? {
        pending' := pending' + [entry];
      } else {
        size' := size' + entry.size;
      }
      if size' > maxSize || files' > OUTPUT_MAX_FILES {
        TripsEarly(seen, entries[i + 1..], maxSize);
        exceeded := true;
        return;
      }
    }
    assert entries[..|entries|] == entries;
  }

  lemma TakeOne(before: seq<Entry>, entries: seq<Entry>, i: nat)
    requires i < |entries|
    ensures before + entries[..i + 1] == (before + entries[..i]) + [entries[i]]
    ensures (before + entries[..i + 1]) + entries[i + 1..] == before + entries
  {
  }

  lemma TakeFolders(pending: seq<Entry>, entries: seq<Entry>, i: nat)
    requires i < |entries|
    ensures pending + Folders(entries[..i + 1]) ==
            if entries[i].Folder? then (pending + Folders(entries[..i])) + [entries[i]]
                else pending + Folders(entries[..i])
  {
    assert entries[..i + 1] == entries[..i] + [entries[i]];
    FoldersConcat(entries[..i], [entries[i]]);
    assert Folders([entries[i]]) == if entries[i].Folder? then [entries[i]] else [];
  }

  lemma {:induction false} FoldersConcat(a: seq<Entry>, b: seq<Entry>)
    ensures Folders(a + b) == Folders(a) + Folders(b)
    decreases |a|
  {
    if a == [] {
      assert a + b == b && Folders(a) + Folders(b) == Folders(b);
    } else {
      assert (a + b)[0] == a[0] && (a + b)[1..] == a[1..] + b;
      FoldersConcat(a[1..], b);
    }
  }

  /** Visiting one more entry. */
  lemma VisitOne(visited: seq<Entry>, entry: Entry, maxSize: nat)
    ensures Bytes(visited + [entry]) == Bytes(visited) + if entry.File? then entry.size else 0
    ensures Trips(visited + [entry], maxSize) <==>
              Trips(visited, maxSize) ||
              (Checked(entry) && (Bytes(visited + [entry]) > maxSize || |visited| + 1 > OUTPUT_MAX_FILES))
  {
    assert (visited + [entry])[..|visited|] == visited;
  }

  /** Once a limit is passed, what would still be visited does not matter. */
  lemma {:induction false} TripsEarly(visited: seq<Entry>, rest: seq<Entry>, maxSize: nat)
    requires Trips(visited, maxSize)
    ensures Trips(visited + rest, maxSize)
    decreases |rest|
  {
    if rest == [] {
      assert visited + rest == visited;
    } else {
      var n := |rest| - 1;
      TripsEarly(visited, rest[..n], maxSize);
      assert visited + rest == (visited + rest[..n]) + [rest[n]];
      VisitOne(visited + rest[..n], rest[n], maxSize);
    }
  }

  /** How many entries had been visited at the last one whose limits were looked at. */
  function LastChecked(visited: seq<Entry>): (n: nat)
    ensures n <= |visited|
  {
    if visited == [] then 0
        else if Checked(visited[|visited| - 1]) then |visited| else LastChecked(visited[..|visited| - 1])
  }

  lemma {:induction false} TripsIff(visited: seq<Entry>, maxSize: nat)
    ensures Trips(visited, maxSize) <==> Bytes(visited) > maxSize || LastChecked(visited) > OUTPUT_MAX_FILES
    decreases |visited|
  {
    if visited != [] {
      var n := |visited| - 1;
      TripsIff(visited[..n], maxSize);
      VisitOne(visited[..n], visited[n], maxSize);
      assert visited[..n] + [visited[n]] == visited;
    }
  }

  function SizeTotal(paths: seq<Entry>): nat {
    SizeAll(paths)
  }

  function CountTotal(paths: seq<Entry>): nat {
    if paths == [] then 0 else Below(paths[0]) + CountTotal(paths[1..])
  }

  lemma {:induction false} SizeConcat(a: seq<Entry>, b: seq<Entry>)
    ensures SizeAll(a + b) == SizeAll(a) + SizeAll(b) && CountTotal(a + b) == CountTotal(a) + CountTotal(b)
    decreases |a|
  {
    if a == [] {
      assert a + b == b;
    } else {
      assert (a + b)[0] == a[0] && (a + b)[1..] == a[1..] + b;
      SizeConcat(a[1..], b);
    }
  }

  lemma {:induction false} BytesConcat(a: seq<Entry>, b: seq<Entry>)
    ensures Bytes(a + b) == Bytes(a) + Bytes(b)
    decreases |b|
  {
    if b == [] {
      assert a + b == a;
    } else {
      assert (a + b)[..|a + b| - 1] == a + b[..|b| - 1];
      BytesConcat(a, b[..|b| - 1]);
    }
  }

  /** A listing: its own files, its subfolders and what is below them. */
  lemma {:induction false} ListingSplits(entries: seq<Entry>)
    ensures SizeAll(entries) == Bytes(entries) + SizeAll(Folders(entries))
    ensures CountAll(entries) == |entries| + CountTotal(Folders(entries))
    decreases |entries|
  {
    if entries != [] {
      ListingSplits(entries[1..]);
      assert entries == [entries[0]] + entries[1..];
      BytesConcat([entries[0]], entries[1..]);
      var first: seq<Entry> := if entries[0].Folder? then [entries[0]] else [];
      SizeConcat(first, Folders(entries[1..]));
      assert [entries[0]][..0] == [];
    }
  }

  lemma PopCounts(pending: seq<Entry>)
    requires AllFolders(pending) && pending != []
    ensures SizeAll(pending) == Bytes(Listing(Last(pending))) + SizeAll(AfterPop(pending))
    ensures CountTotal(pending) == |Listing(Last(pending))| + CountTotal(AfterPop(pending))
  {
    var last, rest := Last(pending), pending[..|pending| - 1];
    assert last in pending && [last][1..] == [];
    assert pending == rest + [last];
    SizeConcat(rest, [last]);
    SizeConcat(rest, Folders(Listing(last)));
    ListingSplits(Listing(last));
    assert SizeAll([last]) == Size(last) == SizeAll(Listing(last)) &&
           CountTotal([last]) == Below(last) == CountAll(Listing(last));
  }

  /** The worklist visits every entry of the forest once: its counts are those of the plain recursion. */
  lemma {:induction false} BytesAreSize(pending: seq<Entry>)
    requires AllFolders(pending)
    ensures Bytes(Visits(pending)) == SizeTotal(pending) && |Visits(pending)| == CountTotal(pending)
    decreases ScansAll(pending)
  {
    if pending != [] {
      PopScans(pending);
      PopCounts(pending);
      BytesAreSize(AfterPop(pending));
      BytesConcat(Listing(Last(pending)), Visits(AfterPop(pending)));
    }
  }

  /** No false alarm: whatever could not be read, true means that a limit is really passed. */
  lemma NoFalseAlarm(paths: seq<Entry>, maxSize: nat)
    requires AllFolders(paths) && Trips(Visits(paths), maxSize)
    ensures SizeTotal(paths) > maxSize || CountTotal(paths) > OUTPUT_MAX_FILES
  {
    TripsIff(Visits(paths), maxSize);
    BytesAreSize(paths);
  }

  /** More than `n` entries come up to the last readable one exactly when a readable one comes after the first `n`. */
  lemma {:induction false} LastCheckedPast(visited: seq<Entry>, n: nat)
    ensures LastChecked(visited) > n <==> exists i :: n <= i < |visited| && Checked(visited[i])
    decreases |visited|
  {
    if visited != [] && !Checked(visited[|visited| - 1]) {
      var rest := visited[..|visited| - 1];
      LastCheckedPast(rest, n);
      if i :| n <= i < |visited| && Checked(visited[i]) {
        assert rest[i] == visited[i];
      }
    } else if visited != [] && |visited| > n {
      assert Checked(visited[|visited| - 1]);
    }
  }

  /**
    True exactly when a limit is passed, except that entries which vanish are only counted at the next
    readable one: an excess of files made up of nothing else at the end of the visit goes unnoticed.
   */
  lemma ExactIff(paths: seq<Entry>, maxSize: nat)
    requires AllFolders(paths)
    ensures (Trips(Visits(paths), maxSize) <==> SizeTotal(paths) > maxSize || CountTotal(paths) > OUTPUT_MAX_FILES) <==>
              SizeTotal(paths) > maxSize || CountTotal(paths) <= OUTPUT_MAX_FILES ||
              exists i :: OUTPUT_MAX_FILES <= i < |Visits(paths)| && Checked(Visits(paths)[i])
  {
    TripsIff(Visits(paths), maxSize);
    BytesAreSize(paths);
    LastCheckedPast(Visits(paths), OUTPUT_MAX_FILES);
  }

  lemma {:induction false} AllVanished(entries: seq<Entry>)
    requires forall e :: e in entries ==> e.Vanished?
    ensures CountAll(entries) == |entries| && SizeAll(entries) == 0 && Folders(entries) == []
    decreases |entries|
  {
    if entries != [] {
      assert entries[0].Vanished?;
      AllVanished(entries[1..]);
    }
  }

  lemma {:induction false} NoneChecked(visited: seq<Entry>)
    requires forall e :: e in visited ==> e.Vanished?
    ensures LastChecked(visited) == 0
    decreases |visited|
  {
    if visited != [] {
      NoneChecked(visited[..|visited| - 1]);
    }
  }

  function AllGone(n: nat): seq<Entry> {
    seq(n, _ => Vanished)
  }

  /** Such an excess: a folder of any number of entries that all vanish before they are looked at. */
  lemma VanishedEntriesGoUnnoticed(n: nat, maxSize: nat)
    requires n > OUTPUT_MAX_FILES
    ensures var paths := [Folder(true, AllGone(n))];
            CountTotal(paths) > OUTPUT_MAX_FILES && !Trips(Visits(paths), maxSize)
  {
    var entries := AllGone(n);
    var paths := [Folder(true, entries)];
    AllVanished(entries);
    NoneChecked(entries);
    assert paths[1..] == [] && Listing(Last(paths)) == entries;
    assert AfterPop(paths) == paths[..0] + [] == [];
    assert Visits(paths) == entries + Visits([]) == entries;
    assert SizeTotal(paths) == Size(paths[0]) + SizeAll([]) == 0;
    assert CountTotal(paths) == Below(paths[0]) + CountTotal([]) == n;
    TripsIff(entries, maxSize);
    BytesAreSize(paths);
  }

  lemma {:induction false} AllCheckedCounts(visited: seq<Entry>)
    requires forall e :: e in visited ==> Checked(e)
    ensures LastChecked(visited) == |visited|
  {
  }

  /** Without vanishing entries the check is exact. */
  lemma ExactWhenReadable(paths: seq<Entry>, maxSize: nat)
    requires AllFolders(paths) && forall e :: e in Visits(paths) ==> Checked(e)
    ensures Trips(Visits(paths), maxSize) <==> SizeTotal(paths) > maxSize || CountTotal(paths) > OUTPUT_MAX_FILES
  {
    AllCheckedCounts(Visits(paths));
    BytesAreSize(paths);
    ExactIff(paths, maxSize);
  }
}
