/**
  The commit graph behind a workspace's clone and its fork.

  Commits live in one grow-only sequence and are named by their position, so a new commit
  always gets a fresh id and can only have older commits as parents. A tree is a map from
  paths to blobs: merging happens at path granularity.
 */
module Commits {
  datatype Option<+T> = None | Some(value: T)

  type Id = nat
  type Path = string
  type Blob = string
  type Tree = map<Path, Blob>

  datatype Commit = Commit(parents: seq<Id>, tree: Tree, author: string, committer: string, message: string)

  type Odb = seq<Commit>

  predicate WellFormed(odb: Odb) {
    forall c, i :: 0 <= c < |odb| && 0 <= i < |odb[c].parents| ==> odb[c].parents[i] < c
  }

  /** Whether commit `c` equals or descends from commit `a`. */
  predicate Reaches(odb: Odb, c: Id, a: Id)
    decreases c
  {
    c < |odb| &&
    (a == c || exists i :: 0 <= i < |odb[c].parents| && odb[c].parents[i] < c && Reaches(odb, odb[c].parents[i], a))
  }

  function Lookup(t: Tree, p: Path): Option<Blob> {
    if p in t then Some(t[p]) else None
  }

  lemma {:induction false} ReachesIsOlder(odb: Odb, c: Id, a: Id)
    requires Reaches(odb, c, a)
    ensures a <= c < |odb|
    decreases c
  {
    if a != c {
      var i :| 0 <= i < |odb[c].parents| && odb[c].parents[i] < c && Reaches(odb, odb[c].parents[i], a);
      ReachesIsOlder(odb, odb[c].parents[i], a);
    }
  }

  lemma {:induction false} ReachesTransitive(odb: Odb, c: Id, b: Id, a: Id)
    requires Reaches(odb, c, b) && Reaches(odb, b, a)
    ensures Reaches(odb, c, a)
    decreases c
  {
    if b != c {
      var i :| 0 <= i < |odb[c].parents| && odb[c].parents[i] < c && Reaches(odb, odb[c].parents[i], b);
      ReachesTransitive(odb, odb[c].parents[i], b, a);
    }
  }

  /** Each commit of the path is a parent of the one before it. */
  ghost predicate IsPath(odb: Odb, path: seq<Id>, c: Id, a: Id) {
    path != [] && path[0] == c && path[|path| - 1] == a && (forall i :: 0 <= i < |path| ==> path[i] < |odb|) &&
    forall i :: 0 < i < |path| ==> path[i] in odb[path[i - 1]].parents
  }

  /** Reaching is the existence of a path along parents. */
  lemma ReachesIffPath(odb: Odb, c: Id, a: Id)
    requires WellFormed(odb)
    ensures Reaches(odb, c, a) <==> exists path :: IsPath(odb, path, c, a)
  {
    if Reaches(odb, c, a) {
      var path := PathTo(odb, c, a);
    }
    if path :| IsPath(odb, path, c, a) {
      PathReaches(odb, path, c, a);
    }
  }

  lemma {:induction false} PathTo(odb: Odb, c: Id, a: Id) returns (path: seq<Id>)
    requires WellFormed(odb) && Reaches(odb, c, a)
    ensures IsPath(odb, path, c, a)
    decreases c
  {
    path := [c];
    if a != c {
      var i :| 0 <= i < |odb[c].parents| && odb[c].parents[i] < c && Reaches(odb, odb[c].parents[i], a);
      var rest := PathTo(odb, odb[c].parents[i], a);
      path := [c] + rest;
    }
  }

  lemma {:induction false} PathReaches(odb: Odb, path: seq<Id>, c: Id, a: Id)
    requires WellFormed(odb) && IsPath(odb, path, c, a)
    ensures Reaches(odb, c, a)
    decreases |path|
  {
    if |path| > 1 {
      assert path[1] in odb[path[0]].parents;
      var i :| 0 <= i < |odb[c].parents| && odb[c].parents[i] == path[1];
      PathReaches(odb, path[1..], path[1], a);
    }
  }

  /** Commits are immutable: adding more of them changes no ancestry. */
  lemma {:induction false} ReachesStable(odb: Odb, odb': Odb, c: Id, a: Id)
    requires odb <= odb' && c < |odb|
    ensures Reaches(odb, c, a) == Reaches(odb', c, a)
    decreases c
  {
    assert odb[c] == odb'[c];
    forall i | 0 <= i < |odb[c].parents| && odb[c].parents[i] < c
      ensures Reaches(odb, odb[c].parents[i], a) == Reaches(odb', odb[c].parents[i], a)
    {
      ReachesStable(odb, odb', odb[c].parents[i], a);
    }
  }

  lemma ReachesStableAll(odb: Odb, odb': Odb)
    requires odb <= odb'
    ensures forall c: Id, a: Id :: c < |odb| ==> Reaches(odb, c, a) == Reaches(odb', c, a)
  {
    forall c: Id, a: Id | c < |odb| ensures Reaches(odb, c, a) == Reaches(odb', c, a) {
      ReachesStable(odb, odb', c, a);
    }
  }

  /** A single-parent commit reaches itself and what its parent reaches. */
  lemma SingleParentReach(odb: Odb, c: Id, a: Id)
    requires c < |odb| && |odb[c].parents| == 1 && odb[c].parents[0] < c
    ensures Reaches(odb, c, a) <==> a == c || Reaches(odb, odb[c].parents[0], a)
  {
  }
}
