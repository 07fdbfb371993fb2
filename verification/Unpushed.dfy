/**
  `GitService._unpushed_commits`: using the reflog of the tracking ref to tell the local commits
  the fork never had from those it had and dropped.
 */
module Unpushed {
  import opened Commits

  /** One reflog entry of `origin/<branch>`; the old side is absent when the ref was created. */
  datatype LogEntry = LogEntry(oldOid: Option<Id>, newOid: Id)

  /** The tracking ref `origin/<branch>`: the fork's tip as last fetched or pushed, and its reflog. */
  datatype Tracking = Tracking(target: Id, log: seq<LogEntry>)

  /** The commits the reflog names, as far as the repository has them. */
  function Seen(odb: Odb, log: seq<LogEntry>): set<Id> {
    (set e | e in log && e.newOid < |odb| :: e.newOid) +
    (set e | e in log && e.oldOid.Some? && e.oldOid.value < |odb| :: e.oldOid.value)
  }

  /** The reflog only names commits the repository has. */
  ghost predicate LogKnown(odb: Odb, log: seq<LogEntry>) {
    forall e :: e in log ==> e.newOid < |odb| && (e.oldOid.Some? ==> e.oldOid.value < |odb|)
  }

  ghost predicate LogReaches(odb: Odb, log: seq<LogEntry>, a: Id) {
    exists s :: s in Seen(odb, log) && Reaches(odb, s, a)
  }

  /** Both sides of every entry count: the ref was at the old commit before the server's first entry, too. */
  lemma LogReachesIff(odb: Odb, log: seq<LogEntry>, a: Id)
    ensures LogReaches(odb, log, a) <==>
              exists e :: e in log &&
                (Reaches(odb, e.newOid, a) || (e.oldOid.Some? && Reaches(odb, e.oldOid.value, a)))
  {
    if e :| e in log && (Reaches(odb, e.newOid, a) || (e.oldOid.Some? && Reaches(odb, e.oldOid.value, a))) {
      assert e.newOid < |odb| ==> e.newOid in Seen(odb, log);
      assert e.oldOid.Some? && e.oldOid.value < |odb| ==> e.oldOid.value in Seen(odb, log);
    }
  }

  predicate Hidden(odb: Odb, hidden: set<Id>, a: Id) {
    exists h :: h in hidden && Reaches(odb, h, a)
  }

  /** The commits below id `n` that `head` reaches and nothing in `hidden` does, parents first. */
  function Walk(odb: Odb, head: Id, hidden: set<Id>, n: nat): seq<Id> {
    if n == 0 then []
    else Walk(odb, head, hidden, n - 1) + if Reaches(odb, head, n - 1) && !Hidden(odb, hidden, n - 1) then [n - 1]
        else []
  }

  /** The local commits the fork branch never had, oldest first, and whether HEAD holds commits it had but dropped. */
  function UnpushedCommits(odb: Odb, head: Id, ref: Tracking): (seq<Id>, bool) {
    var notOnOrigin := Walk(odb, head, {ref.target}, |odb|);
    var neverOnOrigin := Walk(odb, head, {ref.target} + Seen(odb, ref.log), |odb|);
    (neverOnOrigin, |neverOnOrigin| < |notOnOrigin|)
  }

  // --- What the walk lists ---

  lemma {:induction false} WalkMembers(odb: Odb, head: Id, hidden: set<Id>, n: nat, a: Id)
    ensures a in Walk(odb, head, hidden, n) <==> a < n && Reaches(odb, head, a) && !Hidden(odb, hidden, a)
    decreases n
  {
    if n > 0 {
      WalkMembers(odb, head, hidden, n - 1, a);
    }
  }

  /** Hiding more never lengthens the walk, and shortens it exactly when a walked commit gets hidden. */
  lemma {:induction false} WalkShorter(odb: Odb, head: Id, hidden: set<Id>, more: set<Id>, n: nat)
    requires hidden <= more
    ensures |Walk(odb, head, more, n)| <= |Walk(odb, head, hidden, n)|
    ensures |Walk(odb, head, more, n)| < |Walk(odb, head, hidden, n)| <==>
            exists a: Id :: a < n && Reaches(odb, head, a) && !Hidden(odb, hidden, a) && Hidden(odb, more, a)
    decreases n
  {
    if n > 0 {
      WalkShorter(odb, head, hidden, more, n - 1);
      assert Hidden(odb, hidden, n - 1) ==> Hidden(odb, more, n - 1);
    }
  }

  /** Some commit of HEAD was on the fork, by the reflog, and is not on its tip any more. */
  ghost predicate HoldsDropped(odb: Odb, head: Id, ref: Tracking) {
    exists a: Id :: Reaches(odb, head, a) && LogReaches(odb, ref.log, a) && !Reaches(odb, ref.target, a)
  }

  /** The length comparison detects exactly the commits that were on the fork and got dropped. */
  lemma RewrittenIffHoldsDropped(odb: Odb, head: Id, ref: Tracking)
    ensures UnpushedCommits(odb, head, ref).1 <==> HoldsDropped(odb, head, ref)
  {
    var hidden, more := {ref.target}, {ref.target} + Seen(odb, ref.log);
    WalkShorter(odb, head, hidden, more, |odb|);
    forall a: Id ensures Hidden(odb, hidden, a) <==> Reaches(odb, ref.target, a) {
      if Reaches(odb, ref.target, a) { assert ref.target in hidden; }
    }
    forall a: Id ensures Hidden(odb, more, a) <==> Reaches(odb, ref.target, a) || LogReaches(odb, ref.log, a) {
      if Reaches(odb, ref.target, a) { assert ref.target in more; }
      if LogReaches(odb, ref.log, a) {
        var s :| s in Seen(odb, ref.log) && Reaches(odb, s, a);
        assert s in more;
      }
    }
    forall a: Id | Reaches(odb, head, a) ensures a < |odb| {
      ReachesIsOlder(odb, head, a);
    }
  }

  /** The first component lists exactly HEAD's commits that neither the tip nor the reflog reaches. */
  lemma NeverOnOrigin(odb: Odb, head: Id, ref: Tracking, a: Id)
    ensures a in UnpushedCommits(odb, head, ref).0 <==>
            Reaches(odb, head, a) && !Reaches(odb, ref.target, a) && !LogReaches(odb, ref.log, a)
  {
    var more := {ref.target} + Seen(odb, ref.log);
    WalkMembers(odb, head, more, |odb|, a);
    if Reaches(odb, head, a) { ReachesIsOlder(odb, head, a); }
    if Reaches(odb, ref.target, a) { assert ref.target in more; }
    if LogReaches(odb, ref.log, a) {
      var s :| s in Seen(odb, ref.log) && Reaches(odb, s, a);
      assert s in more;
    }
  }

  lemma {:induction false} WalkIds(odb: Odb, head: Id, hidden: set<Id>, n: nat)
    requires n <= |odb|
    ensures forall i :: 0 <= i < |Walk(odb, head, hidden, n)| ==> Walk(odb, head, hidden, n)[i] < n
    decreases n
  {
    if n > 0 {
      WalkIds(odb, head, hidden, n - 1);
    }
  }

  ghost predicate StrictlyIncreasing(w: seq<Id>) {
    forall i, j :: 0 <= i < j < |w| ==> w[i] < w[j]
  }

  /** Parents come before their children, and no commit is listed twice. */
  lemma {:induction false} WalkSorted(odb: Odb, head: Id, hidden: set<Id>, n: nat)
    requires n <= |odb|
    ensures StrictlyIncreasing(Walk(odb, head, hidden, n))
    decreases n
  {
    if n > 0 {
      var earlier := Walk(odb, head, hidden, n - 1);
      WalkSorted(odb, head, hidden, n - 1);
      WalkIds(odb, head, hidden, n - 1);
      assert StrictlyIncreasing(earlier + []);
      assert StrictlyIncreasing(earlier + [n - 1]);
    }
  }

  // --- Linear history ---

  /** Nothing HEAD reaches has more than one parent. */
  ghost predicate LinearHistory(odb: Odb, head: Id) {
    forall a: Id :: a < |odb| && Reaches(odb, head, a) ==> |odb[a].parents| <= 1
  }

  /** `run` is a contiguous piece of history ending at `head`: each commit's only parent is the one before it. */
  ghost predicate SuffixEndingAt(odb: Odb, head: Id, run: seq<Id>) {
    (forall i :: 0 <= i < |run| ==> run[i] < |odb|) &&
    (run != [] ==> run[|run| - 1] == head) &&
    (forall i :: 0 < i < |run| ==> |odb[run[i]].parents| == 1 && odb[run[i]].parents[0] == run[i - 1])
  }

  lemma {:induction false} WalkEmptyAbove(odb: Odb, head: Id, hidden: set<Id>, m: nat, n: nat)
    requires m <= n && forall a: Id :: m <= a < n ==> !Reaches(odb, head, a)
    ensures Walk(odb, head, hidden, n) == Walk(odb, head, hidden, m)
    decreases n
  {
    if m < n {
      WalkEmptyAbove(odb, head, hidden, m, n - 1);
    }
  }

  lemma {:induction false} WalkSameReach(odb: Odb, head: Id, head': Id, hidden: set<Id>, n: nat)
    requires forall a: Id :: a < n ==> (Reaches(odb, head, a) <==> Reaches(odb, head', a))
    ensures Walk(odb, head, hidden, n) == Walk(odb, head', hidden, n)
    decreases n
  {
    if n > 0 {
      WalkSameReach(odb, head, head', hidden, n - 1);
    }
  }

  lemma {:induction false} WalkAllHidden(odb: Odb, head: Id, hidden: set<Id>, n: nat)
    requires Hidden(odb, hidden, head)
    ensures Walk(odb, head, hidden, n) == []
    decreases n
  {
    if n > 0 {
      WalkAllHidden(odb, head, hidden, n - 1);
      if Reaches(odb, head, n - 1) {
        var h :| h in hidden && Reaches(odb, h, head);
        ReachesTransitive(odb, h, head, n - 1);
      }
    }
  }

  lemma WalkTop(odb: Odb, head: Id, hidden: set<Id>)
    requires head < |odb| && !Hidden(odb, hidden, head)
    ensures Walk(odb, head, hidden, |odb|) == Walk(odb, head, hidden, head) + [head]
  {
    forall a: Id | head < a < |odb| ensures !Reaches(odb, head, a) {
      if Reaches(odb, head, a) { ReachesIsOlder(odb, head, a); }
    }
    WalkEmptyAbove(odb, head, hidden, head + 1, |odb|);
  }

  lemma WalkOfRoot(odb: Odb, head: Id, hidden: set<Id>)
    requires head < |odb| && odb[head].parents == []
    ensures Walk(odb, head, hidden, head) == []
  {
    WalkEmptyAbove(odb, head, hidden, 0, head);
  }

  lemma WalkOfParent(odb: Odb, head: Id, p: Id, hidden: set<Id>)
    requires p < head < |odb| && odb[head].parents == [p]
    ensures Walk(odb, head, hidden, head) == Walk(odb, p, hidden, |odb|)
  {
    forall a: Id ensures Reaches(odb, head, a) <==> a == head || Reaches(odb, p, a) {
      SingleParentReach(odb, head, a);
    }
    forall a: Id | p < a ensures !Reaches(odb, p, a) {
      if Reaches(odb, p, a) { ReachesIsOlder(odb, p, a); }
    }
    WalkSameReach(odb, head, p, hidden, head);
    WalkEmptyAbove(odb, p, hidden, p + 1, head);
    WalkEmptyAbove(odb, p, hidden, p + 1, |odb|);
  }

  lemma LinearParent(odb: Odb, head: Id)
    requires WellFormed(odb) && head < |odb| && LinearHistory(odb, head) && odb[head].parents != []
    ensures odb[head].parents == [odb[head].parents[0]] && odb[head].parents[0] < head &&
            LinearHistory(odb, odb[head].parents[0])
  {
    assert Reaches(odb, head, head);
    forall a: Id | Reaches(odb, odb[head].parents[0], a) ensures Reaches(odb, head, a) {
      SingleParentReach(odb, head, a);
    }
  }

  /** On linear history, the walk is a contiguous piece of history that ends at HEAD. */
  lemma {:induction false} LinearWalkIsSuffix(odb: Odb, head: Id, hidden: set<Id>)
    requires WellFormed(odb) && head < |odb| && LinearHistory(odb, head)
    ensures SuffixEndingAt(odb, head, Walk(odb, head, hidden, |odb|))
    decreases head
  {
    if Hidden(odb, hidden, head) {
      WalkAllHidden(odb, head, hidden, |odb|);
    } else {
      WalkTop(odb, head, hidden);
      if odb[head].parents == [] {
        WalkOfRoot(odb, head, hidden);
      } else {
        LinearParent(odb, head);
        var p := odb[head].parents[0];
        WalkOfParent(odb, head, p, hidden);
        LinearWalkIsSuffix(odb, p, hidden);
        SuffixGrows(odb, p, head, Walk(odb, p, hidden, |odb|));
      }
    }
  }

  lemma SuffixGrows(odb: Odb, p: Id, head: Id, run: seq<Id>)
    requires head < |odb| && |odb[head].parents| == 1 && odb[head].parents[0] == p
    requires SuffixEndingAt(odb, p, run)
    ensures SuffixEndingAt(odb, head, run + [head])
  {
  }

  /** `local_commits` is a contiguous suffix of a linear history, ending at HEAD. */
  lemma UnpushedIsSuffix(odb: Odb, head: Id, ref: Tracking)
    requires WellFormed(odb) && head < |odb| && LinearHistory(odb, head)
    ensures SuffixEndingAt(odb, head, UnpushedCommits(odb, head, ref).0)
  {
    LinearWalkIsSuffix(odb, head, {ref.target} + Seen(odb, ref.log));
  }
}
