/**
 The permission pass over the directories of a copy, last first, from any state:
 what each visit finds, and what the pass leaves behind. Both ends of a copy share
 this.
 */
module PermissionPass {
  import opened RemoteFs
  import opened RemotePaths
  import opened Routes
  import opened Copies

  /** What the pass has made of the state `start` when it has visited the directories from entry `u` on. */
  ghost function Passed(c: Copy, start: Fs, u: nat): Fs
    requires Covers(c.order, c.src) && u <= |c.order|
    decreases |c.order| - u
  {
    if u == |c.order| then start
    else if VisitOk(c, start, u) then Passed(c, start, u + 1)[c.t + c.order[u] := c.src[c.order[u]]]
    else Passed(c, start, u + 1)
  }

  /** Entry `i` is a directory that is reached when its turn comes. */
  ghost predicate VisitOk(c: Copy, start: Fs, i: nat)
    requires Covers(c.order, c.src) && i < |c.order|
    decreases |c.order| - i, 0
  {
    && c.src[c.order[i]].Dir?
    && var s := Passed(c, start, i + 1);
       Open(s, TargetRoute(c.cwd, c.stem)) && Reached(s, c.t, c.order[i])
  }

  /** Every directory is. */
  ghost predicate AllOk(c: Copy, start: Fs, n: nat)
    requires Covers(c.order, c.src) && n <= |c.order|
  {
    forall i :: 0 <= i < n && c.src[c.order[i]].Dir? ==> VisitOk(c, start, i)
  }

  lemma {:induction false} PassedKinds(c: Copy, start: Fs, u: nat)
    requires Covers(c.order, c.src) && u <= |c.order|
    ensures SameKinds(start, Passed(c, start, u))
    decreases |c.order| - u
  {
    hide Look, Open, TargetRoute;
    if u == |c.order| {
    } else {
      PassedKinds(c, start, u + 1);
    }
  }

  lemma {:induction false} PassedElsewhere(c: Copy, start: Fs, u: nat, p: Path)
    requires Covers(c.order, c.src) && u <= |c.order|
    requires forall i :: u <= i < |c.order| && c.src[c.order[i]].Dir? ==> c.t + c.order[i] != p
    ensures Same(start, Passed(c, start, u), p)
    decreases |c.order| - u
  {
    hide Reached, Open, TargetRoute;
    if u == |c.order| {
    } else {
      PassedElsewhere(c, start, u + 1, p);
    }
  }

  /** What is reached when its turn comes was reached all along. */
  lemma ReachedAllAlong(c: Copy, start: Fs, i: nat)
    requires c.Given() && i < |c.order|
    ensures Reached(Passed(c, start, i + 1), c.t, c.order[i]) <==> Reached(start, c.t, c.order[i])
  {
    hide IsTree, IsFs, Target, ParentFirst, Distinct, Passed;
    var r, s := c.order[i], Passed(c, start, i + 1);
    assert r in c.src;
    EntryIsNamed(c.src, r);
    forall m | 0 <= m <= |r| ensures Same(start, s, c.t + r[..m]) {
      forall j | i + 1 <= j < |c.order| ensures c.t + c.order[j] != c.t + r[..m] {
        LaterIsNotAbove(c, i, j, m);
      }
      PassedElsewhere(c, start, i + 1, c.t + r[..m]);
    }
    hide Look;
    LookFrame(start, s, c.t, r);
    assert r[..|r|] == r;
    assert Same(start, s, c.t + r[..|r|]);
  }

  lemma {:induction false} OkIsSet(c: Copy, start: Fs, u: nat, j: nat)
    requires c.Given() && u <= j < |c.order| && VisitOk(c, start, j)
    ensures Has(Passed(c, start, u), c.t + c.order[j], c.src[c.order[j]])
    decreases j - u
  {
    hide IsTree, IsFs, Target, ParentFirst, TargetRoute, Reached, Open;
    if u < j {
      OkIsSet(c, start, u + 1, j);
      DifferentEntries(c, u, j);
    }
  }

  /** No directory of the copy has a file in its place. */
  ghost predicate NoFileFor(c: Copy, start: Fs)
    requires Covers(c.order, c.src)
  {
    forall j :: 0 <= j < |c.order| && c.src[c.order[j]].Dir? && c.t + c.order[j] in start ==>
      start[c.t + c.order[j]].Dir?
  }

  // ---------------------------------------------------------------- the way stays open

  ghost predicate ClosedBelow(c: Copy, d: Path) {
    c.t < d && d[|c.t|..] in c.order && d[|c.t|..] in c.src && c.src[d[|c.t|..]] == Dir(false)
  }

  /** The destination does not lead through a directory of the copy, below its root, that the source has closed. */
  ghost predicate Passable(c: Copy) {
    forall d :: d in TargetRoute(c.cwd, c.stem) ==> !ClosedBelow(c, d)
  }

  /** Without a destination there is nothing that it could lead through. */
  lemma NoRouteNoTrouble(c: Copy)
    requires c.stem == ""
    ensures Passable(c) && TargetRoute(c.cwd, c.stem) == {}
  {
    assert DropTrailing([]) == [];
  }

  /** As long as the root is not visited, a passable destination stays open. */
  lemma {:induction false} WayStaysOpen(c: Copy, start: Fs, u: nat)
    requires c.Given() && 1 <= u <= |c.order| && Passable(c) && Open(start, TargetRoute(c.cwd, c.stem))
    ensures Open(Passed(c, start, u), TargetRoute(c.cwd, c.stem))
    decreases |c.order| - u
  {
    hide IsTree, IsFs, Target, ParentFirst, Distinct, TargetRoute, Reached;
    if u == |c.order| {
    } else {
      WayStaysOpen(c, start, u + 1);
      var r := c.order[u];
      if r == [] {
        RootComesFirst(c, u);
      } else {
        assert (c.t + r)[|c.t|..] == r && c.t < c.t + r;
        assert c.t + r in TargetRoute(c.cwd, c.stem) ==> !ClosedBelow(c, c.t + r);
      }
    }
  }

  /** Then a directory is visited if it can be reached. */
  lemma VisitedIfReached(c: Copy, start: Fs, j: nat)
    requires c.Given() && j < |c.order| && Passable(c) && Open(start, TargetRoute(c.cwd, c.stem))
    ensures VisitOk(c, start, j) <==> c.src[c.order[j]].Dir? && Reached(start, c.t, c.order[j])
  {
    hide IsTree, IsFs, Target, ParentFirst, Distinct, TargetRoute, Passable, Reached, Passed, Open;
    WayStaysOpen(c, start, j + 1);
    ReachedAllAlong(c, start, j);
  }

  /** A destination that is not passable is lost before the root is visited. */
  lemma NotAllOk(c: Copy, start: Fs)
    requires c.Given() && c.order != [] && !Passable(c)
    ensures !AllOk(c, start, |c.order|)
  {
    hide IsTree, IsFs, Target, TargetRoute, Distinct, ParentFirst, Passed;
    if c.stem == "" {
      NoRouteNoTrouble(c);
    }
    FirstIsRoot(c);
    var d :| d in TargetRoute(c.cwd, c.stem) && ClosedBelow(c, d);
    var r := d[|c.t|..];
    assert d == c.t + r && r != [];
    var j :| 0 <= j < |c.order| && c.order[j] == r;
    if AllOk(c, start, |c.order|) {
      assert VisitOk(c, start, j) && VisitOk(c, start, 0);
      OkIsSet(c, start, 1, j);
    }
  }

  /**
   From a state in which they are all reached, the directories are all visited
   exactly when the destination is passable.
   */
  lemma AllOkIff(c: Copy, start: Fs)
    requires c.Given() && c.order != [] && Open(start, TargetRoute(c.cwd, c.stem))
    requires forall j :: 0 <= j < |c.order| && c.src[c.order[j]].Dir? ==> Reached(start, c.t, c.order[j])
    ensures AllOk(c, start, |c.order|) <==> Passable(c)
  {
    hide IsTree, IsFs, Target, ParentFirst, Distinct, TargetRoute, Passable, Reached, VisitOk, Open;
    if Passable(c) {
      forall j | 0 <= j < |c.order| && c.src[c.order[j]].Dir? ensures VisitOk(c, start, j) {
        VisitedIfReached(c, start, j);
      }
    } else {
      NotAllOk(c, start);
    }
  }

  // ------------------------------------------------------- after transfers that succeeded

  /** The way is open then, and every directory of the copy is reached. */
  lemma TransfersReach(c: Copy)
    requires c.Valid() && c.LandsFrom(0)
    ensures Open(c.Progress(|c.order|), TargetRoute(c.cwd, c.stem))
    ensures forall j :: 0 <= j < |c.order| && c.src[c.order[j]].Dir? ==> Reached(c.Progress(|c.order|), c.t, c.order[j])
  {
    hide IsTree, IsFs, Target, ParentFirst, Distinct, TargetRoute, Copy.Progress, Copy.Lands, Reached;
    var s := c.Progress(|c.order|);
    TargetIsWalk(c.fs, c.cwd, c.stem, c.t);
    ProgressGrows(c, |c.order|);
    forall j | 0 <= j < |c.order| && c.src[c.order[j]].Dir? ensures Reached(s, c.t, c.order[j]) {
      DirectoryReached(c, j);
    }
  }

  lemma DirectoryReached(c: Copy, j: nat)
    requires c.Valid() && c.LandsFrom(0) && j < |c.order| && c.src[c.order[j]].Dir?
    ensures Reached(c.Progress(|c.order|), c.t, c.order[j])
  {
    hide IsTree, IsFs, Target, ParentFirst, Distinct, Copy.Progress, Copy.Lands, Look;
    var r, s := c.order[j], c.Progress(|c.order|);
    assert r in c.src;
    EntryIsNamed(c.src, r);
    DirectoryArrives(c, j);
    forall k | 0 <= k < |r| ensures c.t + r[..k] in s && s[c.t + r[..k]] == Dir(true) {
      WayIsOpen(c, j, k);
    }
    if r == [] {
      assert c.t + r == c.t;
    } else {
      assert r[..0] == [] && c.t + [] == c.t && c.t + r[..0] in s;
    }
    LookDown(s, c.t, r);
  }

  /** When all are visited, each entry has its permissions too. */
  lemma PassLanded(c: Copy)
    requires c.Valid() && c.LandsFrom(0) && AllOk(c, c.Progress(|c.order|), |c.order|)
    ensures c.Landed(Passed(c, c.Progress(|c.order|), 0), true)
  {
    hide IsTree, IsFs, Target, ParentFirst, Distinct, Passed, Copy.Progress, Copy.Lands, Copy.Place;
    var n, start := |c.order|, c.Progress(|c.order|);
    var s := Passed(c, start, 0);
    forall i | 0 <= i < n ensures Has(s, c.Place(c.order[i]), c.src[c.order[i]]) {
      if c.src[c.order[i]].Dir? {
        OkIsSet(c, start, 0, i);
        DirectoryPlace(c, c.order[i]);
      } else {
        Placed(c, n, i);
        forall j | 0 <= j < n && c.src[c.order[j]].Dir? ensures c.t + c.order[j] != c.Place(c.order[i]) {
          DistinctPlaces(c, c.order[i], c.order[j]);
          DirectoryPlace(c, c.order[j]);
        }
        PassedElsewhere(c, start, 0, c.Place(c.order[i]));
      }
    }
    forall p | forall i :: 0 <= i < n ==> c.Place(c.order[i]) != p ensures Same(c.fs, s, p) {
      forall j | 0 <= j < n && c.src[c.order[j]].Dir? ensures c.t + c.order[j] != p {
        DirectoryPlace(c, c.order[j]);
      }
      PassedElsewhere(c, start, 0, p);
      Untouched(c, n, p);
    }
  }

  lemma NotVisited(c: Copy, start: Fs, i: nat)
    requires Covers(c.order, c.src) && i < |c.order| && c.src[c.order[i]].File?
    ensures Passed(c, start, i) == Passed(c, start, i + 1)
  {
  }

  /** Into an empty destination whose parent is there, a copy always succeeds. */
  lemma EmptyDestinationFits(c: Copy)
    requires c.Valid() && Empty(c)
    ensures c.FitsFrom(0) && c.LandsFrom(0) && Passable(c)
  {
    hide IsFs, Target, ParentFirst, Distinct, TargetRoute;
    EmptyFits(c);
    TargetIsWalk(c.fs, c.cwd, c.stem, c.t);
  }
}
