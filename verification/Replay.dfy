/**
  `GitService._replay`: cherry-picking local commits onto the fork's tip by three-way merges
  of whole trees, without touching the working tree.
 */
module Replay {
  import opened Commits

  // --- Three-way merge of trees, path by path ---

  predicate PathConflict(base: Option<Blob>, ours: Option<Blob>, theirs: Option<Blob>) {
    theirs != base && ours != base && ours != theirs
  }

  function MergePath(base: Option<Blob>, ours: Option<Blob>, theirs: Option<Blob>): Option<Blob> {
    if theirs == base then ours else theirs
  }

  function ConflictPaths(base: Tree, ours: Tree, theirs: Tree): set<Path> {
    set p | p in base.Keys + ours.Keys + theirs.Keys &&
    PathConflict(Lookup(base, p), Lookup(ours, p), Lookup(theirs, p))
  }

  function MergeTrees(base: Tree, ours: Tree, theirs: Tree): (merged: Tree)
    ensures forall p :: Lookup(merged, p) == MergePath(Lookup(base, p), Lookup(ours, p), Lookup(theirs, p))
  {
    map p | p in ours.Keys + theirs.Keys && MergePath(Lookup(base, p), Lookup(ours, p), Lookup(theirs, p)).Some?
      :: MergePath(Lookup(base, p), Lookup(ours, p), Lookup(theirs, p)).value
  }

  // --- The commits a replay creates ---

  /** One cherry-picked commit: where its author and message come from, and its tree. */
  datatype Pick = Pick(source: Id, tree: Tree)

  /** How a replay ends; `Rootless` is the failure on a commit without a parent. */
  datatype Ending = Completed | Conflicting(files: set<Path>) | Rootless

  datatype Picked = Picked(picks: seq<Pick>, ending: Ending)

  ghost predicate CommitIds(odb: Odb, commits: seq<Id>) {
    forall i :: 0 <= i < |commits| ==> commits[i] < |odb|
  }

  /** What replaying `commits` onto a tip with tree `onto` creates. */
  function Picks(odb: Odb, commits: seq<Id>, onto: Tree): Picked
    requires WellFormed(odb) && CommitIds(odb, commits)
  {
    if commits == [] then Picked([], Completed) else
    var c := odb[commits[0]];
    var rest := commits[1..];
    if |c.parents| > 1 then Picks(odb, rest, onto)
    else if |c.parents| == 0 then Picked([], Rootless)
    else
      var base := odb[c.parents[0]].tree;
      var files := ConflictPaths(base, onto, c.tree);
      if files != {} then Picked([], Conflicting(files))
      else
        var merged := MergeTrees(base, onto, c.tree);
        if merged == onto then Picks(odb, rest, onto)
        else var later := Picks(odb, rest, merged);
             Picked([Pick(commits[0], merged)] + later.picks, later.ending)
  }

  function TipTree(onto: Tree, picks: seq<Pick>): Tree {
    if picks == [] then onto else picks[|picks| - 1].tree
  }

  /** The commit graph with `picks` appended as a chain on `onto`. */
  function Chain(odb: Odb, onto: Id, picks: seq<Pick>, committer: string): Odb
    requires forall i :: 0 <= i < |picks| ==> picks[i].source < |odb|
  {
    odb + seq(|picks|, k requires 0 <= k < |picks| =>
      Commit([if k == 0 then onto else |odb| + k - 1], picks[k].tree, odb[picks[k].source].author, committer,
          odb[picks[k].source].message))
  }

  function ChainTip(odb: Odb, onto: Id, picks: seq<Pick>): Id {
    if picks == [] then onto else |odb| + |picks| - 1
  }

  ghost predicate SourcesKnown(odb: Odb, picks: seq<Pick>) {
    forall i :: 0 <= i < |picks| ==> picks[i].source < |odb|
  }

  lemma {:induction false} PicksKnown(odb: Odb, commits: seq<Id>, onto: Tree)
    requires WellFormed(odb) && CommitIds(odb, commits)
    ensures SourcesKnown(odb, Picks(odb, commits, onto).picks)
    decreases |commits|
  {
    if commits != [] {
      var c := odb[commits[0]];
      PicksKnown(odb, commits[1..], onto);
      if |c.parents| == 1 {
        PicksKnown(odb, commits[1..], MergeTrees(odb[c.parents[0]].tree, onto, c.tree));
      }
    }
  }

  // --- What the replay of a linear run of commits yields ---

  function Previous(base: Id, run: seq<Id>, i: nat): Id
    requires i < |run|
  {
    if i == 0 then base else run[i - 1]
  }

  /** Each commit of the run has exactly one parent: the previous one, or `base` for the first. */
  ghost predicate LinearRun(odb: Odb, base: Id, run: seq<Id>) {
    base < |odb| && CommitIds(odb, run) &&
    forall i :: 0 <= i < |run| ==> |odb[run[i]].parents| == 1 && odb[run[i]].parents[0] == Previous(base, run, i)
  }

  function Last(base: Id, run: seq<Id>): Id {
    if run == [] then base else run[|run| - 1]
  }

  ghost predicate Touches(odb: Odb, base: Id, run: seq<Id>, i: nat, p: Path)
    requires LinearRun(odb, base, run) && i < |run|
  {
    Lookup(odb[run[i]].tree, p) != Lookup(odb[Previous(base, run, i)].tree, p)
  }

  ghost predicate Touched(odb: Odb, base: Id, run: seq<Id>, p: Path)
    requires LinearRun(odb, base, run)
  {
    exists i :: 0 <= i < |run| && Touches(odb, base, run, i, p)
  }

  /**
    The first change the run makes to `p` goes to a value that the fork does not have, and the fork changed `p` too.
   */
  ghost predicate Contested(odb: Odb, base: Id, run: seq<Id>, onto: Tree, p: Path)
    requires LinearRun(odb, base, run)
  {
    Lookup(onto, p) != Lookup(odb[base].tree, p) &&
    exists i :: 0 <= i < |run| && Touches(odb, base, run, i, p) &&
        (forall j :: 0 <= j < i ==> !Touches(odb, base, run, j, p)) &&
                Lookup(odb[run[i]].tree, p) != Lookup(onto, p)
  }

  lemma RunTail(odb: Odb, base: Id, run: seq<Id>)
    requires LinearRun(odb, base, run) && run != []
    ensures LinearRun(odb, run[0], run[1..])
    ensures forall i, p :: 0 <= i < |run| - 1 ==>
              Touches(odb, run[0], run[1..], i, p) == Touches(odb, base, run, i + 1, p)
    ensures Last(run[0], run[1..]) == Last(base, run)
  {
    forall i | 0 <= i < |run| - 1
      ensures |odb[run[1..][i]].parents| == 1 && odb[run[1..][i]].parents[0] == Previous(run[0], run[1..], i)
    {
      assert run[1..][i] == run[i + 1];
    }
  }

  lemma TouchedSplit(odb: Odb, base: Id, run: seq<Id>, p: Path)
    requires LinearRun(odb, base, run) && run != [] && LinearRun(odb, run[0], run[1..])
    ensures Touched(odb, base, run, p) <==> Touches(odb, base, run, 0, p) || Touched(odb, run[0], run[1..], p)
  {
    RunTail(odb, base, run);
    if Touched(odb, base, run, p) && !Touches(odb, base, run, 0, p) {
      var i :| 0 <= i < |run| && Touches(odb, base, run, i, p);
      assert Touches(odb, run[0], run[1..], i - 1, p);
    }
    if Touched(odb, run[0], run[1..], p) {
      var i :| 0 <= i < |run| - 1 && Touches(odb, run[0], run[1..], i, p);
      assert Touches(odb, base, run, i + 1, p);
    }
  }

  lemma {:induction false} UntouchedKeepsValue(odb: Odb, base: Id, run: seq<Id>, p: Path)
    requires LinearRun(odb, base, run) && !Touched(odb, base, run, p)
    ensures Lookup(odb[Last(base, run)].tree, p) == Lookup(odb[base].tree, p)
    decreases |run|
  {
    if run != [] {
      RunTail(odb, base, run);
      TouchedSplit(odb, base, run, p);
      UntouchedKeepsValue(odb, run[0], run[1..], p);
    }
  }

  /** If the run's first commit merges cleanly, what is contested later is what was contested before. */
  lemma ContestedSplit(odb: Odb, base: Id, run: seq<Id>, onto: Tree, merged: Tree, p: Path)
    requires LinearRun(odb, base, run) && run != [] && LinearRun(odb, run[0], run[1..])
    requires !PathConflict(Lookup(odb[base].tree, p), Lookup(onto, p), Lookup(odb[run[0]].tree, p))
    requires Lookup(merged, p) == MergePath(Lookup(odb[base].tree, p), Lookup(onto, p), Lookup(odb[run[0]].tree, p))
    ensures Contested(odb, base, run, onto, p) <==> Contested(odb, run[0], run[1..], merged, p)
  {
    RunTail(odb, base, run);
    if Contested(odb, base, run, onto, p) {
      var i :| 0 <= i < |run| && Touches(odb, base, run, i, p) &&
          (forall j :: 0 <= j < i ==> !Touches(odb, base, run, j, p)) &&
               Lookup(odb[run[i]].tree, p) != Lookup(onto, p);
      assert i > 0 && !Touches(odb, base, run, 0, p);
      forall j | 0 <= j < i - 1 ensures !Touches(odb, run[0], run[1..], j, p) {
        assert Touches(odb, run[0], run[1..], j, p) == Touches(odb, base, run, j + 1, p);
      }
      assert Touches(odb, run[0], run[1..], i - 1, p);
    }
    if Contested(odb, run[0], run[1..], merged, p) {
      var i :| 0 <= i < |run| - 1 && Touches(odb, run[0], run[1..], i, p) &&
          (forall j :: 0 <= j < i ==> !Touches(odb, run[0], run[1..], j, p)) &&
               Lookup(odb[run[1..][i]].tree, p) != Lookup(merged, p);
      forall j | 0 <= j < i + 1 ensures !Touches(odb, base, run, j, p) {
        if j > 0 { assert Touches(odb, run[0], run[1..], j - 1, p) == Touches(odb, base, run, j, p); }
      }
      assert Touches(odb, base, run, i + 1, p);
    }
  }

  lemma ConflictPathsComplete(base: Tree, ours: Tree, theirs: Tree, p: Path)
    ensures p in ConflictPaths(base, ours, theirs) <==>
              PathConflict(Lookup(base, p), Lookup(ours, p), Lookup(theirs, p))
  {
  }

  /**
    Replaying a linear run onto the fork's tip conflicts exactly when some path is contested.
    Otherwise the result has the local value at every path the run touched and the fork's value
    everywhere else.
   */
  lemma {:induction false} ReplayOfLinearRun(odb: Odb, base: Id, run: seq<Id>, onto: Tree)
    requires WellFormed(odb) && LinearRun(odb, base, run)
    ensures !Picks(odb, run, onto).ending.Rootless?
    ensures Picks(odb, run, onto).ending.Conflicting? <==> exists p :: Contested(odb, base, run, onto, p)
    ensures Picks(odb, run, onto).ending.Completed? ==>
              forall p :: Lookup(TipTree(onto, Picks(odb, run, onto).picks), p) ==
                          if Touched(odb, base, run, p) then Lookup(odb[Last(base, run)].tree, p) else Lookup(onto, p)
    decreases |run|
  {
    if run != [] {
      RunTail(odb, base, run);
      var c := odb[run[0]];
      assert c.parents[0] == Previous(base, run, 0);
      var files := ConflictPaths(odb[base].tree, onto, c.tree);
      if files != {} {
        var p :| p in files;
        assert Touches(odb, base, run, 0, p);
        assert Contested(odb, base, run, onto, p);
      } else {
        var merged := MergeTrees(odb[base].tree, onto, c.tree);
        ReplayOfLinearRun(odb, run[0], run[1..], merged);
        TipAfterFirst(odb, run, onto, merged);
        forall p ensures Contested(odb, base, run, onto, p) <==> Contested(odb, run[0], run[1..], merged, p) {
          ConflictPathsComplete(odb[base].tree, onto, c.tree, p);
          ContestedSplit(odb, base, run, onto, merged, p);
        }
        if Picks(odb, run, onto).ending.Completed? {
          forall p ensures Lookup(TipTree(onto, Picks(odb, run, onto).picks), p) ==
                           if Touched(odb, base, run, p) then Lookup(odb[Last(base, run)].tree, p)
                               else Lookup(onto, p) {
            ReplayedPath(odb, base, run, onto, merged, p, Lookup(TipTree(onto, Picks(odb, run, onto).picks), p));
          }
        }
      }
    }
  }

  /** A first commit that merges cleanly leaves the rest to be replayed on the merged tree. */
  lemma TipAfterFirst(odb: Odb, run: seq<Id>, onto: Tree, merged: Tree)
    requires WellFormed(odb) && CommitIds(odb, run) && run != [] && |odb[run[0]].parents| == 1
    requires ConflictPaths(odb[odb[run[0]].parents[0]].tree, onto, odb[run[0]].tree) == {}
    requires merged == MergeTrees(odb[odb[run[0]].parents[0]].tree, onto, odb[run[0]].tree)
    ensures TipTree(onto, Picks(odb, run, onto).picks) == TipTree(merged, Picks(odb, run[1..], merged).picks)
    ensures Picks(odb, run, onto).ending == Picks(odb, run[1..], merged).ending
  {
  }

  /** The value at one path after the whole run, from the value after the rest of the run. */
  lemma ReplayedPath(odb: Odb, base: Id, run: seq<Id>, onto: Tree, merged: Tree, p: Path, value: Option<Blob>)
    requires LinearRun(odb, base, run) && run != [] && LinearRun(odb, run[0], run[1..])
    requires Lookup(merged, p) == MergePath(Lookup(odb[base].tree, p), Lookup(onto, p), Lookup(odb[run[0]].tree, p))
    requires value == if Touched(odb, run[0], run[1..], p) then Lookup(odb[Last(run[0], run[1..])].tree, p)
             else Lookup(merged, p)
    ensures value == if Touched(odb, base, run, p) then Lookup(odb[Last(base, run)].tree, p) else Lookup(onto, p)
  {
    RunTail(odb, base, run);
    TouchedSplit(odb, base, run, p);
    if !Touched(odb, run[0], run[1..], p) {
      UntouchedKeepsValue(odb, run[0], run[1..], p);
    }
  }

  // --- Any list of commits, merges included ---

  /** Replaying a list is replaying its first part, and then the rest on the tree that is reached. */
  lemma {:induction false} ReplayInParts(odb: Odb, a: seq<Id>, b: seq<Id>, onto: Tree)
    requires WellFormed(odb) && CommitIds(odb, a) && CommitIds(odb, b)
    ensures CommitIds(odb, a + b)
    ensures var first := Picks(odb, a, onto);
            Picks(odb, a + b, onto) ==
              if !first.ending.Completed? then first
              else var second := Picks(odb, b, TipTree(onto, first.picks));
                   Picked(first.picks + second.picks, second.ending)
    decreases |a|
  {
    if a == [] {
      assert a + b == b;
    } else {
      assert (a + b)[0] == a[0] && (a + b)[1..] == a[1..] + b;
      var c := odb[a[0]];
      ReplayInParts(odb, a[1..], b, onto);
      if |c.parents| == 1 {
        var merged := MergeTrees(odb[c.parents[0]].tree, onto, c.tree);
        ReplayInParts(odb, a[1..], b, merged);
      }
    }
  }

  /**
    What one commit does: a merge is passed over, a root fails. Otherwise it conflicts if at some path it, the fork
    and its parent all differ; and if not, its changes are taken, in a commit of their own unless it has none left.
   */
  lemma ReplayOfOne(odb: Odb, id: Id, onto: Tree)
    requires WellFormed(odb) && id < |odb|
    ensures var r, c := Picks(odb, [id], onto), odb[id];
            match |c.parents|
            case 0 => r == Picked([], Rootless)
            case 1 =>
              var base := odb[c.parents[0]].tree;
              (r.ending.Conflicting? <==>
                 exists p :: Lookup(c.tree, p) != Lookup(base, p) && Lookup(onto, p) != Lookup(base, p) &&
                             Lookup(onto, p) != Lookup(c.tree, p)) &&
              (r.ending.Conflicting? ==> r.picks == []) &&
              (!r.ending.Conflicting? ==>
                 r.ending.Completed? &&
                 (forall p :: Lookup(TipTree(onto, r.picks), p) ==
                              if Lookup(c.tree, p) == Lookup(base, p) then Lookup(onto, p) else Lookup(c.tree, p)) &&
                 r.picks == (if TipTree(onto, r.picks) == onto then [] else [Pick(id, TipTree(onto, r.picks))]))
            case _ => r == Picked([], Completed)
  {
    var c := odb[id];
    assert [id][1..] == [];
    if |c.parents| == 1 {
      var base := odb[c.parents[0]].tree;
      forall p ensures p in ConflictPaths(base, onto, c.tree) <==>
                       Lookup(c.tree, p) != Lookup(base, p) && Lookup(onto, p) != Lookup(base, p) &&
                       Lookup(onto, p) != Lookup(c.tree, p) {
        ConflictPathsComplete(base, onto, c.tree, p);
      }
      if ConflictPaths(base, onto, c.tree) != {} {
        var p :| p in ConflictPaths(base, onto, c.tree);
      }
    }
  }

  // --- The shape of the new commits ---

  /** `part` lists some of the elements of `whole`, in the same order. */
  predicate InOrder<T(==)>(part: seq<T>, whole: seq<T>) {
    part == [] ||
    (whole != [] && if part[0] == whole[0] then InOrder(part[1..], whole[1..]) else InOrder(part, whole[1..]))
  }

  function Sources(picks: seq<Pick>): seq<Id> {
    if picks == [] then [] else [picks[0].source] + Sources(picks[1..])
  }

  /** No pick repeats the tree it is put on. */
  ghost predicate NoneEmpty(onto: Tree, picks: seq<Pick>) {
    forall i :: 0 <= i < |picks| ==> picks[i].tree != TipTree(onto, picks[..i])
  }

  lemma {:induction false} InOrderSkip<T>(part: seq<T>, whole: seq<T>, x: T)
    requires InOrder(part, whole)
    ensures InOrder(part, [x] + whole)
    decreases |whole|, 1
  {
    assert ([x] + whole)[1..] == whole;
    if part != [] && part[0] == x {
      if part[0] == whole[0] {
        InOrderSkip(part[1..], whole[1..], whole[0]);
        assert [whole[0]] + whole[1..] == whole;
      } else {
        InOrderTail(part, whole);
      }
    }
  }

  lemma {:induction false} InOrderTail<T>(part: seq<T>, whole: seq<T>)
    requires part != [] && InOrder(part, whole)
    ensures InOrder(part[1..], whole)
    decreases |whole|, 0
  {
    assert [whole[0]] + whole[1..] == whole;
    if part[0] == whole[0] {
      InOrderSkip(part[1..], whole[1..], whole[0]);
    } else {
      InOrderTail(part, whole[1..]);
      InOrderSkip(part[1..], whole[1..], whole[0]);
    }
  }

  lemma NoneEmptyCons(onto: Tree, first: Pick, later: seq<Pick>)
    requires NoneEmpty(first.tree, later)
    ensures NoneEmpty(onto, [first] + later) <==> first.tree != onto
  {
    var picks := [first] + later;
    assert TipTree(onto, picks[..0]) == onto;
    forall i | 0 < i < |picks| ensures picks[i].tree != TipTree(onto, picks[..i]) {
      assert picks[..i] == [first] + later[..i - 1];
      assert later[i - 1].tree != TipTree(first.tree, later[..i - 1]);
    }
    if NoneEmpty(onto, picks) {
      assert picks[0].tree != TipTree(onto, picks[..0]);
    }
  }

  /** A replay keeps the order of its commits, picks no merges and creates no empty commit. */
  lemma {:induction false} ReplayShape(odb: Odb, commits: seq<Id>, onto: Tree)
    requires WellFormed(odb) && CommitIds(odb, commits)
    ensures var picks := Picks(odb, commits, onto).picks;
            InOrder(Sources(picks), commits) && NoneEmpty(onto, picks) &&
            forall i :: 0 <= i < |picks| ==> picks[i].source in commits && |odb[picks[i].source].parents| == 1
    decreases |commits|
  {
    if commits != [] {
      var c := odb[commits[0]];
      assert [commits[0]] + commits[1..] == commits;
      ReplayShape(odb, commits[1..], onto);
      if |c.parents| == 1 {
        var merged := MergeTrees(odb[c.parents[0]].tree, onto, c.tree);
        ReplayShape(odb, commits[1..], merged);
        var later := Picks(odb, commits[1..], merged).picks;
        assert ([Pick(commits[0], merged)] + later)[1..] == later;
        NoneEmptyCons(onto, Pick(commits[0], merged), later);
      }
      InOrderSkip(Sources(Picks(odb, commits[1..], onto).picks), commits[1..], commits[0]);
    }
  }

  /**
    The new commits: a single-parent chain on `onto` ending at the tip, with the picked trees and
    the authors and messages of their sources; the commits that were there stay as they are.
   */
  lemma ChainShape(odb: Odb, onto: Id, picks: seq<Pick>, committer: string)
    requires WellFormed(odb) && onto < |odb| && SourcesKnown(odb, picks)
    ensures var odb' := Chain(odb, onto, picks, committer);
            WellFormed(odb') && odb <= odb' && |odb'| == |odb| + |picks| &&
            ChainTip(odb, onto, picks) < |odb'| &&
            odb'[ChainTip(odb, onto, picks)].tree == TipTree(odb[onto].tree, picks) &&
            forall k :: 0 <= k < |picks| ==>
              odb'[|odb| + k].parents == [if k == 0 then onto else |odb| + k - 1] &&
              odb'[|odb| + k].tree == picks[k].tree &&
              odb'[|odb| + k].author == odb[picks[k].source].author &&
              odb'[|odb| + k].message == odb[picks[k].source].message &&
              odb'[|odb| + k].committer == committer
  {
  }

  lemma ChainSnoc(odb: Odb, onto: Id, picks: seq<Pick>, pick: Pick, committer: string)
    requires SourcesKnown(odb, picks) && pick.source < |odb|
    ensures SourcesKnown(odb, picks + [pick])
    ensures Chain(odb, onto, picks + [pick], committer) ==
            Chain(odb, onto, picks, committer) +
            [Commit([ChainTip(odb, onto, picks)], pick.tree, odb[pick.source].author, committer,
                odb[pick.source].message)]
  {
  }

  /** The tip of the chain reaches the new commits and what `onto` reaches, nothing else. */
  lemma {:induction false} ChainReach(odb: Odb, onto: Id, picks: seq<Pick>, committer: string, k: nat, a: Id)
    requires WellFormed(odb) && onto < |odb| && SourcesKnown(odb, picks) && k < |picks|
    ensures Reaches(Chain(odb, onto, picks, committer), |odb| + k, a) <==>
              |odb| <= a <= |odb| + k || Reaches(odb, onto, a)
    decreases k
  {
    ChainShape(odb, onto, picks, committer);
    var odb' := Chain(odb, onto, picks, committer);
    SingleParentReach(odb', |odb| + k, a);
    ReachesStable(odb, odb', onto, a);
    if k > 0 {
      ChainReach(odb, onto, picks, committer, k - 1, a);
    }
  }

  lemma TipReach(odb: Odb, onto: Id, picks: seq<Pick>, committer: string, a: Id)
    requires WellFormed(odb) && onto < |odb| && SourcesKnown(odb, picks)
    ensures Reaches(Chain(odb, onto, picks, committer), ChainTip(odb, onto, picks), a) <==>
            (picks != [] && |odb| <= a <= ChainTip(odb, onto, picks)) || Reaches(odb, onto, a)
  {
    ChainShape(odb, onto, picks, committer);
    ReachesStable(odb, Chain(odb, onto, picks, committer), onto, a);
    if picks != [] {
      ChainReach(odb, onto, picks, committer, |picks| - 1, a);
    }
  }

  // --- Replaying step by step ---

  /** After the first `i` commits, `done` was picked, the tip has tree `tree`, and the rest is still to do. */
  ghost predicate InProgress(odb: Odb, commits: seq<Id>, onto: Tree, i: nat, tree: Tree, done: seq<Pick>) {
    WellFormed(odb) && CommitIds(odb, commits) && i <= |commits| && SourcesKnown(odb, done) &&
    Picks(odb, commits, onto) ==
        Picked(done + Picks(odb, commits[i..], tree).picks, Picks(odb, commits[i..], tree).ending)
  }

  lemma ProgressStep(odb: Odb, commits: seq<Id>, onto: Tree, i: nat, tree: Tree, done: seq<Pick>)
    requires InProgress(odb, commits, onto, i, tree, done) && i < |commits|
    ensures var c := odb[commits[i]];
            (|c.parents| > 1 ==> InProgress(odb, commits, onto, i + 1, tree, done)) &&
            (|c.parents| == 1 ==>
               var base := odb[c.parents[0]].tree;
               var files, merged := ConflictPaths(base, tree, c.tree), MergeTrees(base, tree, c.tree);
               (files != {} ==> Picks(odb, commits, onto) == Picked(done, Conflicting(files))) &&
               (files == {} && merged == tree ==> InProgress(odb, commits, onto, i + 1, tree, done)) &&
               (files == {} && merged != tree ==>
                   InProgress(odb, commits, onto, i + 1, merged, done + [Pick(commits[i], merged)])))
  {
    var c := odb[commits[i]];
    assert commits[i..][0] == commits[i] && commits[i..][1..] == commits[i + 1..];
    if |c.parents| == 1 {
      var merged := MergeTrees(odb[c.parents[0]].tree, tree, c.tree);
      var later := Picks(odb, commits[i + 1..], merged).picks;
      assert done + ([Pick(commits[i], merged)] + later) == done + [Pick(commits[i], merged)] + later;
    }
  }

  lemma ProgressEnd(odb: Odb, commits: seq<Id>, onto: Tree, tree: Tree, done: seq<Pick>)
    requires InProgress(odb, commits, onto, |commits|, tree, done)
    ensures Picks(odb, commits, onto) == Picked(done, Completed)
  {
    assert done + [] == done;
  }
}
