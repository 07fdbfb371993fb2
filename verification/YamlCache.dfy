/**
  The cache of YAML parses (`load_yaml_cached`): a least-recently-used cache with a byte budget,
  used by several threads while files are rewritten.

  The parse of a file's version is identified with the number of that version. Reading a file is one
  step, and a file never gets the same modification time and size twice.
 */
module YamlCache {
  datatype Option<+T> = None | Some(value: T)

  const MB := 1024 * 1024
  const MAX_BYTES := 16 * MB
  const MAX_READ_SIZE := 5 * MB   // the larger of the limits of check_read_size; text files have 1 MB

  type Version = nat

  datatype Stamp = Stamp(mtime: int, size: nat)

  datatype Entry = Entry(key: string, stamp: Stamp, parsed: Version)

  // --- The ordered dictionary, least recently used entry first ---

  function Total(entries: seq<Entry>): nat {
    if entries == [] then 0 else entries[0].stamp.size + Total(entries[1..])
  }

  function Without(entries: seq<Entry>, key: string): seq<Entry> {
    if entries == [] then []
    else (if entries[0].key == key then [] else [entries[0]]) + Without(entries[1..], key)
  }

  function Get(entries: seq<Entry>, key: string): Option<Entry> {
    if entries == [] then None else if entries[0].key == key then Some(entries[0]) else Get(entries[1..], key)
  }

  predicate Hit(entries: seq<Entry>, key: string, stamp: Stamp) {
    Get(entries, key).Some? && Get(entries, key).value.stamp == stamp
  }

  /** `popitem(last=False)` until the budget is met or one entry is left. */
  function Trim(entries: seq<Entry>): seq<Entry> {
    if Total(entries) > MAX_BYTES && |entries| > 1 then Trim(entries[1..]) else entries
  }

  function AfterLookup(entries: seq<Entry>, key: string, stamp: Stamp): seq<Entry> {
    if Hit(entries, key, stamp) then Without(entries, key) + [Get(entries, key).value] else entries
  }

  function AfterInsert(entries: seq<Entry>, entry: Entry): seq<Entry> {
    Trim(Without(entries, entry.key) + [entry])
  }

  predicate UniqueKeys(entries: seq<Entry>) {
    forall i, j :: 0 <= i < j < |entries| ==> entries[i].key != entries[j].key
  }

  predicate ReadableSizes(entries: seq<Entry>) {
    forall i :: 0 <= i < |entries| ==> entries[i].stamp.size <= MAX_READ_SIZE
  }

  lemma {:induction false} TotalConcat(a: seq<Entry>, b: seq<Entry>)
    ensures Total(a + b) == Total(a) + Total(b)
    decreases |a|
  {
    if a == [] {
      assert a + b == b;
    } else {
      assert (a + b)[0] == a[0] && (a + b)[1..] == a[1..] + b;
      TotalConcat(a[1..], b);
    }
  }

  lemma {:induction false} GetMember(entries: seq<Entry>, key: string)
    ensures Get(entries, key).Some? ==> Get(entries, key).value in entries && Get(entries, key).value.key == key
    ensures Get(entries, key) == None ==> forall e :: e in entries ==> e.key != key
    decreases |entries|
  {
    if entries != [] {
      GetMember(entries[1..], key);
    }
  }

  /** A lookup finds exactly what is cached for that version of the file. */
  lemma FoundIff(entries: seq<Entry>, key: string, stamp: Stamp)
    requires UniqueKeys(entries)
    ensures forall version :: Entry(key, stamp, version) in entries <==>
                Hit(entries, key, stamp) && Get(entries, key).value.parsed == version
  {
    GetMember(entries, key);
    forall version | Entry(key, stamp, version) in entries ensures Get(entries, key).value.parsed == version {
      var i :| 0 <= i < |entries| && entries[i] == Entry(key, stamp, version);
      var j :| 0 <= j < |entries| && entries[j] == Get(entries, key).value;
      assert i == j;
    }
  }

  lemma {:induction false} WithoutMembers(entries: seq<Entry>, key: string)
    ensures forall e :: e in Without(entries, key) <==> e in entries && e.key != key
    decreases |entries|
  {
    if entries != [] {
      WithoutMembers(entries[1..], key);
    }
  }

  lemma {:induction false} WithoutKeepsUnique(entries: seq<Entry>, key: string)
    requires UniqueKeys(entries)
    ensures UniqueKeys(Without(entries, key))
    decreases |entries|
  {
    if entries != [] {
      WithoutKeepsUnique(entries[1..], key);
      WithoutMembers(entries[1..], key);
      assert forall e :: e in Without(entries[1..], key) ==> e.key != entries[0].key;
    }
  }

  /** Removing a key gives back exactly the bytes of its entry. */
  lemma {:induction false} WithoutTotal(entries: seq<Entry>, key: string)
    requires UniqueKeys(entries)
    ensures Total(Without(entries, key)) == Total(entries) - if Get(entries, key).Some?
            then Get(entries, key).value.stamp.size else 0
    decreases |entries|
  {
    if entries != [] {
      WithoutTotal(entries[1..], key);
      if entries[0].key == key {
        GetMember(entries[1..], key);
        assert forall e :: e in entries[1..] ==> e.key != key;
        assert [] + Without(entries[1..], key) == Without(entries[1..], key);
      } else {
        TotalConcat([entries[0]], Without(entries[1..], key));
      }
    }
  }

  /** The entries that stay are the longest end of the list within the budget; the newest always stays. */
  lemma {:induction false} TrimKeepsLongestEnd(entries: seq<Entry>) returns (cut: nat)
    requires entries != []
    ensures cut < |entries| && Trim(entries) == entries[cut..]
    ensures Total(entries[cut..]) <= MAX_BYTES || cut == |entries| - 1
    ensures forall k :: 0 <= k < cut ==> Total(entries[k..]) > MAX_BYTES
    decreases |entries|
  {
    if Total(entries) > MAX_BYTES && |entries| > 1 {
      var rest := TrimKeepsLongestEnd(entries[1..]);
      cut := rest + 1;
      assert forall k :: 0 < k <= |entries| ==> entries[k..] == entries[1..][k - 1..];
      assert entries[0..] == entries;
    } else {
      cut := 0;
      assert entries[0..] == entries;
    }
  }

  // --- Order of use ---

  /** When the key was used last; -1 if never. */
  function LastUse(uses: seq<string>, key: string): int {
    if uses == [] then -1 else if uses[|uses| - 1] == key then |uses| - 1 else LastUse(uses[..|uses| - 1], key)
  }

  ghost predicate ByLastUse(entries: seq<Entry>, uses: seq<string>) {
    forall i, j :: 0 <= i < j < |entries| ==> LastUse(uses, entries[i].key) < LastUse(uses, entries[j].key)
  }

  lemma {:induction false} WithoutKeepsOrder(entries: seq<Entry>, key: string, uses: seq<string>)
    requires ByLastUse(entries, uses)
    ensures ByLastUse(Without(entries, key), uses)
    decreases |entries|
  {
    if entries != [] {
      assert ByLastUse(entries[1..], uses) by {
        forall i, j | 0 <= i < j < |entries[1..]|
          ensures LastUse(uses, entries[1..][i].key) < LastUse(uses, entries[1..][j].key)
        {
          assert entries[1..][i] == entries[i + 1] && entries[1..][j] == entries[j + 1];
        }
      }
      WithoutKeepsOrder(entries[1..], key, uses);
      WithoutMembers(entries[1..], key);
      assert forall e :: e in entries[1..] ==> LastUse(uses, entries[0].key) < LastUse(uses, e.key);
    }
  }

  lemma {:induction false} LastUseBound(uses: seq<string>, key: string)
    ensures LastUse(uses, key) < |uses|
    decreases |uses|
  {
    if uses != [] && uses[|uses| - 1] != key {
      LastUseBound(uses[..|uses| - 1], key);
    }
  }

  lemma UseMovesToEnd(entries: seq<Entry>, entry: Entry, uses: seq<string>)
    requires UniqueKeys(entries) && ByLastUse(entries, uses)
    ensures ByLastUse(Without(entries, entry.key) + [entry], uses + [entry.key])
  {
    var rest, uses' := Without(entries, entry.key), uses + [entry.key];
    WithoutKeepsOrder(entries, entry.key, uses);
    WithoutMembers(entries, entry.key);
    assert uses'[..|uses|] == uses;
    forall i | 0 <= i < |rest| ensures LastUse(uses', rest[i].key) == LastUse(uses, rest[i].key) < |uses| {
      assert rest[i] in rest;
      LastUseBound(uses, rest[i].key);
    }
  }

  lemma SuffixFacts(entries: seq<Entry>, cut: nat, uses: seq<string>)
    requires cut <= |entries| && UniqueKeys(entries) && ByLastUse(entries, uses)
    ensures UniqueKeys(entries[cut..]) && ByLastUse(entries[cut..], uses)
  {
  }

  lemma AppendKeepsUnique(entries: seq<Entry>, entry: Entry)
    requires UniqueKeys(entries)
    ensures UniqueKeys(Without(entries, entry.key) + [entry])
  {
    WithoutKeepsUnique(entries, entry.key);
    WithoutMembers(entries, entry.key);
    forall e | e in Without(entries, entry.key) ensures e.key != entry.key {}
  }

  /** Nothing is evicted as long as everything fits. */
  lemma KeepsWhatFits(entries: seq<Entry>, entry: Entry)
    requires UniqueKeys(entries)
    ensures Total(entries) + entry.stamp.size <= MAX_BYTES ==>
              forall e :: e in entries && e.key != entry.key ==> e in AfterInsert(entries, entry)
  {
    WithoutTotal(entries, entry.key);
    TotalConcat(Without(entries, entry.key), [entry]);
    WithoutMembers(entries, entry.key);
    assert Total([entry]) == entry.stamp.size + Total([]);
  }

  /** The module's state; each method is one section under its lock. */
  class Cache {
    var entries: seq<Entry>
    var cachedBytes: int
    ghost var uses: seq<string>   // every key used so far, by a hit or an insertion

    ghost predicate Valid()
      reads this
    {
      UniqueKeys(entries) && ReadableSizes(entries) && ByLastUse(entries, uses) &&
      cachedBytes == Total(entries) <= MAX_BYTES
    }

    constructor ()
      ensures Valid() && entries == []
    {
      entries, cachedBytes, uses := [], 0, [];
    }

    method Lookup(key: string, stamp: Stamp) returns (parsed: Option<Version>)
      requires Valid()
      modifies this
      ensures Valid() && entries == AfterLookup(old(entries), key, stamp)
      ensures parsed == if Hit(old(entries), key, stamp) then Some(Get(old(entries), key).value.parsed) else None
      ensures uses == if Hit(old(entries), key, stamp) then old(uses) + [key] else old(uses)
      ensures forall version: Version :: parsed == Some(version) <==> Entry(key, stamp, version) in old(entries)
    {
      FoundIff(entries, key, stamp);
      var cached := Get(entries, key);
      if cached.Some? && cached.value.stamp == stamp {
        ghost var before := entries;
        GetMember(entries, key);
        MoveToEndKeepsTotal(entries, cached.value);
        AppendKeepsUnique(entries, cached.value);
        UseMovesToEnd(entries, cached.value, uses);
        WithoutMembers(entries, key);
        entries := Without(entries, key) + [cached.value];
        uses := uses + [key];
        assert forall e :: e in entries ==> e in before;
        return Some(cached.value.parsed);
      }
      return None;
    }

    method Insert(key: string, stamp: Stamp, parsed: Version)
      requires Valid() && stamp.size <= MAX_READ_SIZE
      modifies this
      ensures Valid() && uses == old(uses) + [key]
      ensures entries == AfterInsert(old(entries), Entry(key, stamp, parsed))
      ensures entries != [] && entries[|entries| - 1] == Entry(key, stamp, parsed)
      ensures old(cachedBytes) + stamp.size <= MAX_BYTES ==>
                forall e :: e in old(entries) && e.key != key ==> e in entries
    {
      var entry := Entry(key, stamp, parsed);
      KeepsWhatFits(entries, entry);
      WithoutTotal(entries, key);
      TotalConcat(Without(entries, key), [entry]);
      AppendKeepsUnique(entries, entry);
      UseMovesToEnd(entries, entry, uses);
      WithoutMembers(entries, key);
      var previous := Get(entries, key);
      if previous.Some? {
        cachedBytes := cachedBytes - previous.value.stamp.size;
      }
      entries := Without(entries, key) + [entry];
      cachedBytes := cachedBytes + stamp.size;
      uses := uses + [key];
      Evict();
    }

    /** The eviction loop of an insertion. */
    method Evict()
      requires UniqueKeys(entries) && ReadableSizes(entries) && ByLastUse(entries, uses)
      requires cachedBytes == Total(entries) && entries != []
      modifies this`entries, this`cachedBytes
      ensures Valid() && entries == Trim(old(entries))
      ensures entries != [] && entries[|entries| - 1] == old(entries[|entries| - 1])
    {
      ghost var cut: nat := 0;
      while cachedBytes > MAX_BYTES && |entries| > 1
        invariant cut < |old(entries)| && entries == old(entries)[cut..]
        invariant Trim(entries) == Trim(old(entries)) && cachedBytes == Total(entries)
        decreases |entries|
      {
        cachedBytes := cachedBytes - entries[0].stamp.size;
        entries := entries[1..];
        cut := cut + 1;
      }
      SuffixFacts(old(entries), cut, uses);
      assert |entries| == 1 ==> Total(entries) == entries[0].stamp.size + Total(entries[1..]);
    }
  }

  lemma MoveToEndKeepsTotal(entries: seq<Entry>, entry: Entry)
    requires UniqueKeys(entries) && Get(entries, entry.key) == Some(entry)
    ensures Total(Without(entries, entry.key) + [entry]) == Total(entries)
  {
    WithoutTotal(entries, entry.key);
    TotalConcat(Without(entries, entry.key), [entry]);
  }

  /** Least recently used: every evicted key was last used before every key that stays. */
  lemma EvictsLeastRecentlyUsed(entries: seq<Entry>, entry: Entry, uses: seq<string>, evicted: Entry, kept: Entry)
    requires UniqueKeys(entries) && ByLastUse(entries, uses)
    requires evicted in entries && evicted.key != entry.key && evicted !in AfterInsert(entries, entry)
    requires kept in AfterInsert(entries, entry)
    ensures LastUse(uses + [entry.key], evicted.key) < LastUse(uses + [entry.key], kept.key)
  {
    var added := Without(entries, entry.key) + [entry];
    UseMovesToEnd(entries, entry, uses);
    WithoutMembers(entries, entry.key);
    var cut := TrimKeepsLongestEnd(added);
    assert evicted in added;
    var i :| 0 <= i < |added| && added[i] == evicted;
    var j :| 0 <= j < |added[cut..]| && added[cut..][j] == kept;
    assert i >= cut ==> added[cut..][i - cut] == evicted;
    assert added[cut + j] == kept;
  }

  // --- Threads and writers ---

  type ThreadId = nat

  datatype Phase = Statted | Missed | Read(parsed: Version) | Returned(parsed: Version)

  /** `seen` is the version whose stamp the thread's stat returned. */
  datatype Thread = Thread(key: string, seen: Version, phase: Phase)

  /** Every file with the stamps of all its versions. */
  datatype State = State(files: map<string, seq<Stamp>>, entries: seq<Entry>, threads: seq<Thread>)

  datatype Action =
    | Write(key: string, stamp: Stamp)
    | Stat(key: string)
    | Look(t: ThreadId)
    | ReadFile(t: ThreadId)
    | Put(t: ThreadId)

  function Current(s: State, key: string): Version
    requires key in s.files && s.files[key] != []
  {
    |s.files[key]| - 1
  }

  predicate IsFile(s: State, key: string) {
    key in s.files && s.files[key] != []
  }

  predicate Enabled(s: State, a: Action) {
    match a
    case Write(key, stamp) => key in s.files ==> stamp !in s.files[key]
    case Stat(key) => IsFile(s, key) && s.files[key][Current(s, key)].size <= MAX_READ_SIZE
    case Look(t) => t < |s.threads| && s.threads[t].phase == Statted
    case ReadFile(t) => t < |s.threads| && s.threads[t].phase == Missed && IsFile(s, s.threads[t].key)
    case Put(t) => t < |s.threads| && s.threads[t].phase.Read? && SeenStamp(s, t).Some?
  }

  function SeenStamp(s: State, t: ThreadId): Option<Stamp>
    requires t < |s.threads|
  {
    var thread := s.threads[t];
    if thread.key in s.files && thread.seen < |s.files[thread.key]| then Some(s.files[thread.key][thread.seen])
        else None
  }

  function To(s: State, t: ThreadId, phase: Phase): State
    requires t < |s.threads|
  {
    s.(threads := s.threads[t := s.threads[t].(phase := phase)])
  }

  function Next(s: State, a: Action): State
    requires Enabled(s, a)
  {
    match a
    case Write(key, stamp) => s.(files := s.files[key := (if key in s.files then s.files[key] else []) + [stamp]])
    case Stat(key) => s.(threads := s.threads + [Thread(key, Current(s, key), Statted)])
    case Look(t) =>
      var key, stamp := s.threads[t].key, SeenStamp(s, t);
      if stamp.Some? && Hit(s.entries, key, stamp.value)
      then To(s, t, Returned(Get(s.entries, key).value.parsed)).(entries := AfterLookup(s.entries, key, stamp.value))
      else To(s, t, Missed)
    case ReadFile(t) => To(s, t, Read(Current(s, s.threads[t].key)))
    case Put(t) =>
      var entry := Entry(s.threads[t].key, SeenStamp(s, t).value, s.threads[t].phase.parsed);
      To(s, t, Returned(entry.parsed)).(entries := AfterInsert(s.entries, entry))
  }

  ghost predicate Possible(s: State, actions: seq<Action>)
    decreases |actions|
  {
    actions == [] || (Enabled(s, actions[0]) && Possible(Next(s, actions[0]), actions[1..]))
  }

  ghost function After(s: State, actions: seq<Action>): State
    requires Possible(s, actions)
    decreases |actions|
  {
    if actions == [] then s else After(Next(s, actions[0]), actions[1..])
  }

  /** An entry was put under the stamp of a version no newer than the one parsed. */
  ghost predicate EntryOk(s: State, e: Entry) {
    IsFile(s, e.key) && e.parsed <= Current(s, e.key) &&
    exists v: Version :: v <= e.parsed && s.files[e.key][v] == e.stamp
  }

  ghost predicate ThreadOk(s: State, t: Thread) {
    IsFile(s, t.key) && t.seen <= Current(s, t.key) &&
    (t.phase.Read? || t.phase.Returned? ==> t.seen <= t.phase.parsed <= Current(s, t.key))
  }

  ghost predicate Inv(s: State) {
    (forall key, i, j :: key in s.files && 0 <= i < j < |s.files[key]| ==> s.files[key][i] != s.files[key][j]) &&
    (forall e :: e in s.entries ==> EntryOk(s, e)) &&
    (forall t :: 0 <= t < |s.threads| ==> ThreadOk(s, s.threads[t]))
  }

  lemma EntriesStayKnown(entries: seq<Entry>, entry: Entry)
    ensures forall e :: e in AfterInsert(entries, entry) ==> e in entries || e == entry
    ensures forall key, stamp, e :: e in AfterLookup(entries, key, stamp) ==> e in entries
  {
    WithoutMembers(entries, entry.key);
    var cut := TrimKeepsLongestEnd(Without(entries, entry.key) + [entry]);
    forall key, stamp, e | e in AfterLookup(entries, key, stamp) ensures e in entries {
      WithoutMembers(entries, key);
      GetMember(entries, key);
    }
  }

  lemma WriteKeepsInv(s: State, key: string, stamp: Stamp)
    requires Inv(s) && Enabled(s, Write(key, stamp))
    ensures Inv(Next(s, Write(key, stamp)))
  {
    var s' := Next(s, Write(key, stamp));
    forall e | e in s'.entries ensures EntryOk(s', e) {
      assert EntryOk(s, e);
      var v: Version :| v <= e.parsed && s.files[e.key][v] == e.stamp;
      assert s'.files[e.key][v] == e.stamp;
    }
  }

  /** What a hit returns: never a version older than the one the stat saw. */
  lemma HitIsNotOlder(s: State, t: ThreadId)
    requires Inv(s) && Enabled(s, Look(t)) && Hit(s.entries, s.threads[t].key, SeenStamp(s, t).value)
    ensures var parsed := Get(s.entries, s.threads[t].key).value.parsed;
            s.threads[t].seen <= parsed <= Current(s, s.threads[t].key)
  {
    GetMember(s.entries, s.threads[t].key);
    var e := Get(s.entries, s.threads[t].key).value;
    assert EntryOk(s, e) && ThreadOk(s, s.threads[t]);
    var v: Version :| v <= e.parsed && s.files[e.key][v] == e.stamp;
    assert v == s.threads[t].seen;
  }

  lemma StepKeepsInv(s: State, a: Action)
    requires Inv(s) && Enabled(s, a)
    ensures Inv(Next(s, a))
  {
    match a
    case Write(key, stamp) => WriteKeepsInv(s, key, stamp);
    case Stat(key) =>
    case Look(t) =>
      assert ThreadOk(s, s.threads[t]);
      if Hit(s.entries, s.threads[t].key, SeenStamp(s, t).value) {
        HitIsNotOlder(s, t);
        EntriesStayKnown(s.entries, Entry(s.threads[t].key, SeenStamp(s, t).value, 0));
        var s' := Next(s, a);
        forall e | e in s'.entries ensures EntryOk(s', e) {
          assert EntryOk(s, e);
        }
      }
    case ReadFile(t) => assert ThreadOk(s, s.threads[t]);
    case Put(t) =>
      var entry := Entry(s.threads[t].key, SeenStamp(s, t).value, s.threads[t].phase.parsed);
      EntriesStayKnown(s.entries, entry);
      assert ThreadOk(s, s.threads[t]);
      var s' := Next(s, a);
      assert EntryOk(s', entry) by {
        assert s'.files[entry.key][s.threads[t].seen] == entry.stamp;
      }
      forall e | e in s'.entries ensures EntryOk(s', e) {
        assert e != entry ==> EntryOk(s, e);
      }
  }

  lemma {:induction false} RunKeepsInv(s: State, actions: seq<Action>)
    requires Inv(s) && Possible(s, actions)
    ensures Inv(After(s, actions))
    decreases |actions|
  {
    if actions != [] {
      StepKeepsInv(s, actions[0]);
      RunKeepsInv(Next(s, actions[0]), actions[1..]);
    }
  }

  const INITIAL := State(map[], [], [])

  // --- The cache itself, in every run ---

  ghost predicate WithinBudget(entries: seq<Entry>) {
    UniqueKeys(entries) && ReadableSizes(entries) && Total(entries) <= MAX_BYTES
  }

  /** No call is under way for a version that is too large to be read. */
  ghost predicate ReadableThreads(s: State) {
    forall t :: 0 <= t < |s.threads| && SeenStamp(s, t).Some? ==> SeenStamp(s, t).value.size <= MAX_READ_SIZE
  }

  lemma LookupKeepsBudget(entries: seq<Entry>, key: string, stamp: Stamp)
    requires WithinBudget(entries)
    ensures WithinBudget(AfterLookup(entries, key, stamp))
  {
    if Hit(entries, key, stamp) {
      GetMember(entries, key);
      var entry := Get(entries, key).value;
      MoveToEndKeepsTotal(entries, entry);
      AppendKeepsUnique(entries, entry);
      WithoutMembers(entries, key);
      assert forall e :: e in Without(entries, key) + [entry] ==> e in entries;
    }
  }

  lemma InsertKeepsBudget(entries: seq<Entry>, entry: Entry)
    requires WithinBudget(entries) && entry.stamp.size <= MAX_READ_SIZE
    ensures WithinBudget(AfterInsert(entries, entry))
  {
    var added := Without(entries, entry.key) + [entry];
    AppendKeepsUnique(entries, entry);
    WithoutMembers(entries, entry.key);
    assert forall e :: e in added ==> e in entries || e == entry;
    var cut := TrimKeepsLongestEnd(added);
    SuffixIsWithin(added, cut);
    assert cut == |added| - 1 ==> added[cut..] == [entry] && Total([entry]) == entry.stamp.size + Total([]);
  }

  lemma SuffixIsWithin(entries: seq<Entry>, cut: nat)
    requires cut <= |entries| && UniqueKeys(entries) && forall e :: e in entries ==> e.stamp.size <= MAX_READ_SIZE
    ensures UniqueKeys(entries[cut..]) && ReadableSizes(entries[cut..])
  {
  }

  lemma SeenStampStays(s: State, a: Action, t: ThreadId)
    requires Inv(s) && Enabled(s, a) && t < |s.threads|
    ensures t < |Next(s, a).threads| && SeenStamp(Next(s, a), t) == SeenStamp(s, t)
  {
    assert ThreadOk(s, s.threads[t]);
  }

  lemma StepKeepsBudget(s: State, a: Action)
    requires Inv(s) && WithinBudget(s.entries) && ReadableThreads(s) && Enabled(s, a)
    ensures WithinBudget(Next(s, a).entries) && ReadableThreads(Next(s, a))
  {
    forall t: ThreadId | t < |s.threads|
      ensures t < |Next(s, a).threads| && SeenStamp(Next(s, a), t) == SeenStamp(s, t)
    {
      SeenStampStays(s, a, t);
    }
    if a.Look? {
      assert ThreadOk(s, s.threads[a.t]);
      LookupKeepsBudget(s.entries, s.threads[a.t].key, SeenStamp(s, a.t).value);
    } else if a.Put? {
      var thread := s.threads[a.t];
      InsertKeepsBudget(s.entries, Entry(thread.key, SeenStamp(s, a.t).value, thread.phase.parsed));
    }
  }

  lemma {:induction false} RunKeepsBudget(s: State, actions: seq<Action>)
    requires Inv(s) && WithinBudget(s.entries) && ReadableThreads(s) && Possible(s, actions)
    ensures WithinBudget(After(s, actions).entries) && ReadableThreads(After(s, actions))
    decreases |actions|
  {
    if actions != [] {
      StepKeepsInv(s, actions[0]);
      StepKeepsBudget(s, actions[0]);
      RunKeepsBudget(Next(s, actions[0]), actions[1..]);
    }
  }

  /** In every run of any number of threads: one entry per file, none too large to be read, all within the budget. */
  lemma CacheStaysWithinBudget(actions: seq<Action>)
    requires Possible(INITIAL, actions)
    ensures WithinBudget(After(INITIAL, actions).entries)
  {
    RunKeepsBudget(INITIAL, actions);
  }

  /** The step in which a call returns, and what it returns. */
  function ReturnedBy(s: State, a: Action): Option<Version>
    requires Enabled(s, a)
  {
    if (a.Look? || a.Put?) && Next(s, a).threads[a.t].phase.Returned? then Some(Next(s, a).threads[a.t].phase.parsed)
        else None
  }

  /**
    For every interleaving: what a call returns was the file's current version at some moment between
    its stat and its return. It is never older than the stat, and versions count up one by one.
   */
  lemma ReturnsAVersionCurrentDuringTheCall(actions: seq<Action>, a: Action)
    requires Possible(INITIAL, actions) && Enabled(After(INITIAL, actions), a) &&
             ReturnedBy(After(INITIAL, actions), a).Some?
    ensures var s := After(INITIAL, actions);
            var version := ReturnedBy(s, a).value;
            IsFile(s, s.threads[a.t].key) && s.threads[a.t].seen <= version <= Current(s, s.threads[a.t].key)
  {
    RunKeepsInv(INITIAL, actions);
    StepKeepsInv(After(INITIAL, actions), a);
    var s := After(INITIAL, actions);
    assert ThreadOk(s, s.threads[a.t]) && ThreadOk(Next(s, a), Next(s, a).threads[a.t]);
  }

  /** A hit returns exactly the version of its stat if and only if the entry parsed the version its stamp belongs to. */
  lemma HitIsExactIff(s: State, t: ThreadId)
    requires Inv(s) && Enabled(s, Look(t)) && Hit(s.entries, s.threads[t].key, SeenStamp(s, t).value)
    ensures var e := Get(s.entries, s.threads[t].key).value;
            IsFile(s, e.key) && e.parsed < |s.files[e.key]| &&
            (ReturnedBy(s, Look(t)) == Some(s.threads[t].seen) <==> s.files[e.key][e.parsed] == e.stamp)
  {
    HitIsNotOlder(s, t);
    GetMember(s.entries, s.threads[t].key);
    var e := Get(s.entries, s.threads[t].key).value;
    assert ThreadOk(s, s.threads[t]) && EntryOk(s, e);
    assert s.files[e.key][s.threads[t].seen] == e.stamp;
  }

  // --- When every hit is exact ---

  /** No file is rewritten between a call's stat and its read. */
  ghost predicate CalmReads(s: State, actions: seq<Action>)
    requires Possible(s, actions)
    decreases |actions|
  {
    actions != [] ==>
      (actions[0].ReadFile? ==> Current(s, s.threads[actions[0].t].key) == s.threads[actions[0].t].seen) &&
      CalmReads(Next(s, actions[0]), actions[1..])
  }

  /** The call has no version yet, or the one its stat saw. */
  predicate ExactCall(t: Thread) {
    t.phase.Read? || t.phase.Returned? ==> t.phase.parsed == t.seen
  }

  ghost predicate ExactCalls(s: State) {
    forall t :: 0 <= t < |s.threads| ==> ExactCall(s.threads[t])
  }

  ghost predicate ExactEntries(s: State) {
    forall e :: e in s.entries ==>
        IsFile(s, e.key) && e.parsed < |s.files[e.key]| && s.files[e.key][e.parsed] == e.stamp
  }

  ghost predicate Exact(s: State) {
    ExactEntries(s) && ExactCalls(s)
  }

  lemma StepKeepsExact(s: State, a: Action)
    requires Inv(s) && Exact(s) && Enabled(s, a)
    requires a.ReadFile? ==> Current(s, s.threads[a.t].key) == s.threads[a.t].seen
    ensures Exact(Next(s, a))
  {
    match a
    case Look(t) =>
      assert ThreadOk(s, s.threads[t]);
      EntriesStayKnown(s.entries, Entry(s.threads[t].key, SeenStamp(s, t).value, 0));
      if Hit(s.entries, s.threads[t].key, SeenStamp(s, t).value) {
        GetMember(s.entries, s.threads[t].key);
        HitIsExactIff(s, t);
      }
    case Put(t) =>
      EntriesStayKnown(s.entries, Entry(s.threads[t].key, SeenStamp(s, t).value, s.threads[t].phase.parsed));
    case _ =>
  }

  /** A call that took another version than its stat saw keeps it. */
  lemma {:induction false} InexactStays(s: State, actions: seq<Action>, t: ThreadId)
    requires Possible(s, actions) && t < |s.threads| && !ExactCall(s.threads[t])
    ensures t < |After(s, actions).threads| && !ExactCall(After(s, actions).threads[t])
    decreases |actions|
  {
    if actions != [] {
      InexactStays(Next(s, actions[0]), actions[1..], t);
    }
  }

  lemma {:induction false} ExactIffCalm(s: State, actions: seq<Action>)
    requires Inv(s) && Exact(s) && Possible(s, actions)
    ensures ExactCalls(After(s, actions)) <==> CalmReads(s, actions)
    decreases |actions|
  {
    if actions != [] {
      var a := actions[0];
      StepKeepsInv(s, a);
      if a.ReadFile? && Current(s, s.threads[a.t].key) != s.threads[a.t].seen {
        InexactStays(Next(s, a), actions[1..], a.t);
      } else {
        StepKeepsExact(s, a);
        ExactIffCalm(Next(s, a), actions[1..]);
      }
    }
  }

  /**
    For every run: all calls, hit or not, get exactly the version their stat saw if and only if no file is
    rewritten between a call's stat and its read.
   */
  lemma CallsAreExactIffCalm(actions: seq<Action>)
    requires Possible(INITIAL, actions)
    ensures ExactCalls(After(INITIAL, actions)) <==> CalmReads(INITIAL, actions)
  {
    ExactIffCalm(INITIAL, actions);
  }

  /**
    With a rewrite in between, even another call's hit can return a newer version than its stat saw: two calls, and a
    write between stat and read of the first.
   */
  lemma RacedHit()
    ensures exists actions ::
              Possible(INITIAL, actions) && Thread("a", 0, Returned(1)) in After(INITIAL, actions).threads
  {
    var v0, v1 := Stamp(1, 10), Stamp(2, 10);
    var s1 := Next(INITIAL, Write("a", v0));
    var s2 := Next(s1, Stat("a"));
    var s3 := Next(s2, Stat("a"));
    var s4 := Next(s3, Look(0));
    var s5 := Next(s4, Write("a", v1));
    var s6 := Next(s5, ReadFile(0));
    var s7 := Next(s6, Put(0));
    var s8 := Next(s7, Look(1));
    var rest: seq<Action> := [];
    assert s7.entries == [Entry("a", v0, 1)];
    assert s8.threads[1] == Thread("a", 0, Returned(1));
    rest := Prepend(s7, Look(1), rest);
    rest := Prepend(s6, Put(0), rest);
    rest := Prepend(s5, ReadFile(0), rest);
    rest := Prepend(s4, Write("a", v1), rest);
    rest := Prepend(s3, Look(0), rest);
    rest := Prepend(s2, Stat("a"), rest);
    rest := Prepend(s1, Stat("a"), rest);
    rest := Prepend(INITIAL, Write("a", v0), rest);
    assert After(INITIAL, rest) == s8;
  }

  lemma Prepend(s: State, a: Action, rest: seq<Action>) returns (actions: seq<Action>)
    requires Enabled(s, a) && Possible(Next(s, a), rest)
    ensures Possible(s, actions) && After(s, actions) == After(Next(s, a), rest)
  {
    actions := [a] + rest;
    assert actions[1..] == rest;
  }
}
