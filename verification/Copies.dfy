/**
 A copy of a source tree to a target: where each entry goes, and what the
 destination holds on the way there. Both directions of copying share this.
 */
module Copies {
  import opened Wrappers
  import opened Paths
  import opened RemoteFs
  import opened RemotePaths

  // --------------------------------------------------------------- source trees

  /** A directory and everything below it, by path relative to it. */
  ghost predicate IsTree(src: Fs) {
    && [] in src && src[[]].Dir?
    && forall r {:trigger InDirectory(src, r)} :: r in src ==> AreNames(r) && InDirectory(src, r)
  }

  /** An order of the walk: every entry deeper than `first` comes after its directory. */
  ghost predicate ParentFirst(order: seq<Path>, first: nat) {
    forall i {:trigger Follows(order, first, i)} :: 0 <= i < |order| ==> Follows(order, first, i)
  }

  ghost predicate Follows(order: seq<Path>, first: nat, i: nat)
    requires i < |order|
  {
    |order[i]| >= first && (|order[i]| > first ==> Init(order[i]) in order[..i])
  }

  ghost predicate Distinct(order: seq<Path>) {
    forall i, j :: 0 <= i < j < |order| ==> order[i] != order[j]
  }

  ghost predicate Covers(order: seq<Path>, src: Fs) {
    forall i :: 0 <= i < |order| ==> order[i] in src
  }

  lemma {:induction false} AncestorsFirst(order: seq<Path>, first: nat, i: nat, k: nat)
    requires ParentFirst(order, first) && i < |order| && first <= k < |order[i]|
    ensures order[i][..k] in order[..i]
    decreases |order[i]|
  {
    assert Follows(order, first, i);
    var up := Init(order[i]);
    var j :| 0 <= j < i && order[j] == up;
    if k < |up| {
      AncestorsFirst(order, first, j, k);
      assert up[..k] == order[i][..k];
      var m :| 0 <= m < j && order[m] == up[..k];
      assert order[..i][m] == up[..k];
    } else {
      assert order[..i][j] == up == order[i][..k];
    }
  }

  lemma FirstEntry(order: seq<Path>, first: nat)
    requires ParentFirst(order, first) && order != []
    ensures |order[0]| == first
  {
    assert Follows(order, first, 0);
    assert order[..0] == [];
  }

  lemma {:induction false} AncestorIsDir(src: Fs, r: Path, k: nat)
    requires IsTree(src) && r in src && k < |r|
    ensures r[..k] in src && src[r[..k]].Dir?
    decreases |r|
  {
    assert InDirectory(src, r);
    if k < |r| - 1 {
      AncestorIsDir(src, Init(r), k);
      assert Init(r)[..k] == r[..k];
    } else {
      assert Init(r) == r[..k];
    }
  }

  lemma EntryIsNamed(src: Fs, r: Path)
    requires IsTree(src) && r in src
    ensures AreNames(r) && (r != [] ==> Init(r) in src && src[Init(r)].Dir? && IsName(Last(r)))
  {
    assert InDirectory(src, r);
    if r != [] {
      assert IsName(r[|r| - 1]);
    }
  }

  lemma RootIsDir(src: Fs)
    requires IsTree(src)
    ensures [] in src && src[[]].Dir?
  {
  }

  // -------------------------------------------------------------------- the copy

  ghost predicate Has(fs: Fs, p: Path, n: Node) {
    p in fs && fs[p] == n
  }

  /**
   The circumstances of a copy. The receiving end appends the name of a file to
   its destination up to `pushes` times: the server of a put twice, the client
   of a get once.
   */
  datatype Copy = Copy(fs: Fs, src: Fs, t: Path, cwd: Path, root: string, stem: string, order: seq<Path>, pushes: nat) {
    /** The shallowest entry that is copied: without a destination, the root is not. */
    function First(): nat {
      if stem == "" then 1 else 0
    }

    ghost predicate FromTree() {
      IsTree(src) && root != "" && Covers(order, src) && ParentFirst(order, First()) && Distinct(order)
    }

    ghost predicate Given() {
      && FromTree()
      && IsFs(fs) && [] in fs && cwd in fs && fs[cwd].Dir?
      && (Target(fs, cwd, stem).Some? ==> Target(fs, cwd, stem) == Some(t))
    }

    /** The destination leads somewhere: to the target. */
    ghost predicate Valid() {
      Given() && Target(fs, cwd, stem).Some?
    }

    /** Where an entry goes: a file may go into directories that are in its way. */
    ghost function Place(r: Path): Path
      requires r in src
    {
      if src[r].Dir? || r == [] then t + r else Settle(fs, t + r, Last(r), pushes)
    }

    /** What an entry becomes there before permissions are set. */
    ghost function Arrived(r: Path): Node
      requires r in src
    {
      if src[r].File? then src[r] else if t + r in fs then fs[t + r] else Dir(true)
    }

    ghost predicate LetIn(r: Path) {
      r != [] && t + Init(r) in fs && fs[t + Init(r)].Dir? ==> fs[t + Init(r)].open
    }

    /**
     What may already be there for an entry to arrive: no file for a directory,
     and no directory, in the end, for a file.
     */
    ghost predicate Lands(r: Path)
      requires r in src
    {
      && LetIn(r)
      && if src[r].Dir? || r == [] then t + r in fs ==> fs[t + r].Dir? else Settles(fs, t + r, Last(r), pushes)
    }

    /** What may be there for it to arrive in its own place: the same kind. */
    ghost predicate Fits(r: Path)
      requires r in src
    {
      LetIn(r) && (t + r in fs ==> fs[t + r].Dir? == src[r].Dir?)
    }

    ghost predicate LandsUpTo(i: nat)
      requires Covers(order, src) && i <= |order|
    {
      forall j :: 0 <= j < i ==> Lands(order[j])
    }

    ghost predicate LandsFrom(i: nat)
      requires Covers(order, src)
    {
      forall j :: i <= j < |order| ==> Lands(order[j])
    }

    ghost predicate FitsFrom(i: nat)
      requires Covers(order, src)
    {
      forall j :: i <= j < |order| ==> Fits(order[j])
    }

    /** The destination with the entries before `i`, whose permissions are not set yet. */
    ghost function Progress(i: nat): Fs
      requires Covers(order, src) && i <= |order|
      decreases i
    {
      if i == 0 then fs else Progress(i - 1)[Place(order[i - 1]) := Arrived(order[i - 1])]
    }

    /** Permissions are set at the end: not for a single job. */
    predicate Sets(preserve: bool) {
      preserve && |order| > 1
    }

    ghost function Result(r: Path, preserved: bool): Node
      requires r in src
    {
      if preserved then src[r] else Arrived(r)
    }

    /** Each entry is at its place, and nothing else is different. */
    ghost predicate Landed(fs': Fs, preserved: bool)
      requires Covers(order, src)
    {
      && (forall i :: 0 <= i < |order| ==> Has(fs', Place(order[i]), Result(order[i], preserved)))
      && (forall p {:trigger Same(fs, fs', p)} ::
            (forall i :: 0 <= i < |order| ==> Place(order[i]) != p) ==> Same(fs, fs', p))
    }

    /** Each entry is below the target as it is below the source, and nothing else is different. */
    ghost predicate Rebuilt(fs': Fs, preserved: bool)
      requires Covers(order, src)
    {
      && (forall i :: 0 <= i < |order| ==> Has(fs', t + order[i], Result(order[i], preserved)))
      && (forall p {:trigger Same(fs, fs', p)} ::
            (forall i :: 0 <= i < |order| ==> t + order[i] != p) ==> Same(fs, fs', p))
    }
  }

  lemma FitsIs(c: Copy, r: Path)
    requires r in c.src
    requires IsTree(c.src)
    ensures c.Fits(r) <==> c.Lands(r) && c.Place(r) == c.t + r
  {
    if c.src[r].File? && r != [] && c.t + r in c.fs && c.fs[c.t + r].Dir? && c.pushes > 0 {
      SettledIsBelow(c.fs, c.t + r + [Last(r)], Last(r), c.pushes - 1);
    }
  }

  lemma FitsAreLands(c: Copy)
    requires IsTree(c.src) && Covers(c.order, c.src) && c.FitsFrom(0)
    ensures c.LandsFrom(0)
  {
    hide IsTree;
    forall j | 0 <= j < |c.order| ensures c.Lands(c.order[j]) {
      FitsIs(c, c.order[j]);
    }
  }

  /** The end state is determined by that. */
  lemma LandedIsUnique(c: Copy, a: Fs, b: Fs, preserved: bool)
    requires Covers(c.order, c.src) && c.Landed(a, preserved) && c.Landed(b, preserved)
    ensures a == b
  {
    hide Copy.Place, Copy.Result;
    forall p ensures Same(a, b, p) {
      if i :| 0 <= i < |c.order| && c.Place(c.order[i]) == p {
        assert Has(a, p, c.Result(c.order[i], preserved)) && Has(b, p, c.Result(c.order[i], preserved));
      } else {
        assert Same(c.fs, a, p) && Same(c.fs, b, p);
      }
    }
    forall p | p in a || p in b ensures p in a && p in b && a[p] == b[p] {
      assert Same(a, b, p);
    }
  }

  // ---------------------------------------------------------------- places are apart

  lemma PlaceIsBelow(c: Copy, r: Path)
    requires r in c.src
    ensures c.t + r <= c.Place(r)
  {
    if c.src[r].File? && r != [] {
      SettledIsBelow(c.fs, c.t + r, Last(r), c.pushes);
    }
  }

  lemma PrefixesCompare(a: Path, b: Path, p: Path)
    requires a <= p && b <= p
    ensures a <= b || b <= a
  {
  }

  /** Nothing else is placed at or below the place of a file. */
  lemma NothingPlacedBelow(c: Copy, r: Path, q: Path)
    requires IsTree(c.src) && r in c.src && q in c.src && r != q && c.src[r].File?
    ensures !(c.t + r <= c.Place(q))
  {
    hide IsTree, Settle;
    if c.t + r <= c.Place(q) {
      PlaceIsBelow(c, q);
      RootIsDir(c.src);
      PrefixesCompare(c.t + r, c.t + q, c.Place(q));
      if c.t + r <= c.t + q {
        assert q[..|r|] == r by {
          Below(c.t, r, q);
        }
        AncestorIsDir(c.src, q, |r|);
      } else {
        assert r[..|q|] == q by {
          Below(c.t, q, r);
        }
        AncestorIsDir(c.src, r, |q|);
      }
    }
  }

  lemma Below(t: Path, r: Path, q: Path)
    requires t + r <= t + q
    ensures |r| <= |q| && q[..|r|] == r
  {
    forall k | 0 <= k < |r| ensures q[k] == r[k] {
      assert (t + q)[|t| + k] == (t + r)[|t| + k];
    }
  }

  lemma SamePath(t: Path, r: Path, q: Path)
    requires t + r == t + q
    ensures r == q
  {
    Below(t, r, q);
  }

  lemma DistinctPlaces(c: Copy, r: Path, q: Path)
    requires IsTree(c.src) && r in c.src && q in c.src && r != q
    ensures c.Place(r) != c.Place(q)
  {
    hide IsTree, Settle;
    if c.src[r].File? {
      NothingPlacedBelow(c, r, q);
      PlaceIsBelow(c, r);
    } else if c.src[q].File? {
      NothingPlacedBelow(c, q, r);
      PlaceIsBelow(c, q);
    } else if c.t + r == c.t + q {
      SamePath(c.t, r, q);
    }
  }

  // -------------------------------------------------------------------- on the way

  lemma NothingYet(c: Copy)
    requires Covers(c.order, c.src)
    ensures c.Progress(0) == c.fs
  {
  }

  lemma {:induction false} Untouched(c: Copy, i: nat, p: Path)
    requires Covers(c.order, c.src) && i <= |c.order|
    requires forall j :: 0 <= j < i ==> c.Place(c.order[j]) != p
    ensures Same(c.fs, c.Progress(i), p)
    decreases i
  {
    if i == 0 {
    } else {
      Untouched(c, i - 1, p);
    }
  }

  lemma {:induction false} Placed(c: Copy, i: nat, j: nat)
    requires IsTree(c.src) && Covers(c.order, c.src) && Distinct(c.order) && j < i <= |c.order|
    ensures Has(c.Progress(i), c.Place(c.order[j]), c.Arrived(c.order[j]))
    decreases i
  {
    hide IsTree, Copy.Place, Copy.Arrived;
    if j < i - 1 {
      Placed(c, i - 1, j);
      DistinctPlaces(c, c.order[j], c.order[i - 1]);
    }
  }

  /** The place of an entry is as it was until its turn comes, and so is everything below the place of a file. */
  lemma NotYetPlaced(c: Copy, i: nat)
    requires IsTree(c.src) && Covers(c.order, c.src) && Distinct(c.order) && i < |c.order|
    ensures Same(c.fs, c.Progress(i), c.Place(c.order[i]))
    ensures c.src[c.order[i]].File? ==> SameBelow(c.fs, c.Progress(i), c.t + c.order[i])
  {
    hide IsTree, Copy.Place, Copy.Progress;
    forall j | 0 <= j < i ensures c.Place(c.order[j]) != c.Place(c.order[i]) {
      DistinctPlaces(c, c.order[j], c.order[i]);
    }
    Untouched(c, i, c.Place(c.order[i]));
    if c.src[c.order[i]].File? {
      forall p | c.t + c.order[i] <= p ensures Same(c.fs, c.Progress(i), p) {
        forall j | 0 <= j < i ensures c.Place(c.order[j]) != p {
          NothingPlacedBelow(c, c.order[i], c.order[j]);
        }
        Untouched(c, i, p);
      }
    }
  }

  lemma {:induction false} ProgressGrows(c: Copy, i: nat)
    requires c.Valid() && i <= |c.order| && c.LandsUpTo(i)
    ensures Grows(c.fs, c.Progress(i))
    decreases i
  {
    hide IsTree, IsFs, ParentFirst, Distinct, Target;
    if i == 0 {
    } else {
      ProgressGrows(c, i - 1);
      NotYetPlaced(c, i - 1);
      var r := c.order[i - 1];
      RootIsDir(c.src);
      if c.src[r].File? {
        SettledIsNoDir(c.fs, c.t + r, Last(r), c.pushes);
      }
    }
  }

  lemma TargetStays(c: Copy, i: nat)
    requires c.Valid() && i <= |c.order| && c.LandsUpTo(i)
    ensures Target(c.Progress(i), c.cwd, c.stem) == Some(c.t)
  {
    hide IsTree, IsFs, ParentFirst, Distinct, Target, Copy.LandsUpTo, Copy.Progress, Grows;
    ProgressGrows(c, i);
    TargetGrows(c.fs, c.Progress(i), c.cwd, c.stem);
  }

  // ----------------------------------------------------------------- the way to an entry

  /** The directories among the entries before `i` are there, with the permissions that they arrived with. */
  ghost predicate Shows(c: Copy, i: nat, s: Fs)
    requires Covers(c.order, c.src) && i <= |c.order|
  {
    && (forall j :: 0 <= j < i && c.src[c.order[j]].Dir? ==> Has(s, c.t + c.order[j], c.Arrived(c.order[j])))
    && (c.stem == "" && c.t in c.fs ==> Has(s, c.t, c.fs[c.t]))
  }

  lemma NoEmptyEntry(c: Copy)
    requires c.Valid() && c.stem == ""
    ensures [] !in c.order && c.t == c.cwd && c.t in c.fs && c.fs[c.t].Dir?
  {
    hide IsTree, IsFs;
    assert DropTrailing([]) == [];
    forall j | 0 <= j < |c.order| ensures c.order[j] != [] {
      assert Follows(c.order, 1, j);
    }
  }

  lemma ProgressShows(c: Copy, i: nat)
    requires c.Valid() && i <= |c.order|
    ensures Shows(c, i, c.Progress(i))
  {
    hide IsTree, IsFs, ParentFirst, Distinct, Target, Copy.Progress, Copy.Arrived;
    forall j | 0 <= j < i && c.src[c.order[j]].Dir?
      ensures Has(c.Progress(i), c.t + c.order[j], c.Arrived(c.order[j]))
    {
      Placed(c, i, j);
    }
    if c.stem == "" {
      NoEmptyEntry(c);
      forall j | 0 <= j < i ensures c.Place(c.order[j]) != c.t {
        PlaceIsBelow(c, c.order[j]);
        assert c.order[j] in c.order;
        assert |c.t + c.order[j]| > |c.t|;
      }
      Untouched(c, i, c.t);
    }
  }

  /** What is at a directory above entry `i` once its turn comes. */
  ghost function Above(c: Copy, i: nat, k: nat): Node
    requires i < |c.order| && k < |c.order[i]|
  {
    var p := c.t + c.order[i][..k];
    if p in c.fs then c.fs[p] else Dir(true)
  }

  lemma CopiedBefore(c: Copy, i: nat, k: nat) returns (j: nat)
    requires c.Valid() && i < |c.order| && c.LandsUpTo(i) && c.First() <= k < |c.order[i]|
    ensures j < i && c.order[j] == c.order[i][..k] && c.order[j] in c.src && c.src[c.order[j]].Dir? &&
            c.Lands(c.order[j])
  {
    hide IsTree, IsFs, ParentFirst, Distinct, Target, Copy.Lands;
    var up := c.order[i][..k];
    AncestorsFirst(c.order, c.First(), i, k);
    j :| 0 <= j < i && c.order[j] == up;
    assert c.order[i] in c.src;
    AncestorIsDir(c.src, c.order[i], k);
  }

  lemma AncestorMade(c: Copy, i: nat, k: nat, s: Fs)
    requires c.Valid() && i < |c.order| && c.LandsUpTo(i) && k < |c.order[i]| && Shows(c, i, s)
    ensures Has(s, c.t + c.order[i][..k], Above(c, i, k)) && Above(c, i, k).Dir?
  {
    hide IsTree, IsFs, ParentFirst, Distinct, Target, Copy.LandsUpTo;
    if k >= c.First() {
      var j := CopiedBefore(c, i, k);
    } else {
      assert c.order[i][..k] == [] && c.t + [] == c.t;
      NoEmptyEntry(c);
    }
  }

  lemma AncestorOpen(c: Copy, i: nat, k: nat)
    requires c.Valid() && i < |c.order| && c.LandsUpTo(i) && k + 1 < |c.order[i]|
    ensures Above(c, i, k) == Dir(true)
  {
    hide IsTree, IsFs, ParentFirst, Distinct, Target, Copy.LandsUpTo, Copy.Progress;
    ProgressShows(c, i);
    AncestorMade(c, i, k, c.Progress(i));
    var j := CopiedBefore(c, i, k + 1);
    assert Init(c.order[i][..k + 1]) == c.order[i][..k];
  }

  lemma ClearUpTo(c: Copy, i: nat, s: Fs)
    requires c.Valid() && i < |c.order| && c.LandsUpTo(i) && c.order[i] != [] && Shows(c, i, s)
    ensures Clear(s, c.t, Init(c.order[i]))
  {
    hide IsTree, IsFs, ParentFirst, Distinct, Target, Copy.LandsUpTo, Copy.Valid, Above, Shows, Covers;
    var r := c.order[i];
    forall k | 0 <= k < |Init(r)|
      ensures c.t + Init(r)[..k] in s && s[c.t + Init(r)[..k]] == Dir(true)
    {
      AncestorMade(c, i, k, s);
      AncestorOpen(c, i, k);
      assert Init(r)[..k] == r[..k];
    }
  }

  /** Entry `i` has its directory, as long as the destination is found. */
  lemma EntryLeads(c: Copy, i: nat, s: Fs)
    requires c.Valid() && i < |c.order| && c.LandsUpTo(i) && c.order[i] != [] && Shows(c, i, s)
    requires Target(s, c.cwd, c.stem) == Some(c.t)
    ensures Leads(s, c.cwd, c.stem, c.t, c.order[i]) && IsName(Last(c.order[i]))
    ensures s[c.t + Init(c.order[i])] == Above(c, i, |c.order[i]| - 1)
    ensures s[c.t + Init(c.order[i])].open <==> c.LetIn(c.order[i])
  {
    hide IsTree, IsFs, ParentFirst, Distinct, Target, Copy.LandsUpTo, AreNames, Clear, Shows, IsName;
    var r := c.order[i];
    assert r in c.src;
    EntryIsNamed(c.src, r);
    AncestorMade(c, i, 0, s);
    assert r[..0] == [] && c.t + [] == c.t;
    ClearUpTo(c, i, s);
    AncestorMade(c, i, |r| - 1, s);
    assert Init(r) == r[..|r| - 1];
  }

  lemma RootComesFirst(c: Copy, i: nat)
    requires c.Given() && i < |c.order| && c.order[i] == []
    ensures i == 0 && c.stem != ""
  {
    hide IsTree, IsFs, Target;
    assert Follows(c.order, c.First(), i);
    FirstEntry(c.order, c.First());
  }

  lemma FirstIsRoot(c: Copy)
    requires c.Given() && c.order != [] && c.stem != ""
    ensures c.order[0] == [] && [] in c.src && c.src[[]].Dir?
  {
    hide IsFs, Target, Distinct;
    FirstEntry(c.order, 0);
    RootIsDir(c.src);
  }

  // ------------------------------------------------------------- directories of the copy

  lemma NotAboveEarlier(order: seq<Path>, first: nat, a: nat, b: nat)
    requires ParentFirst(order, first) && Distinct(order) && b < a < |order|
    ensures !(order[a] < order[b])
  {
    if order[a] < order[b] {
      var k := |order[a]|;
      AtLeastFirst(order, first, a);
      hide ParentFirst;
      AncestorsFirst(order, first, b, k);
    }
  }

  lemma AtLeastFirst(order: seq<Path>, first: nat, i: nat)
    requires ParentFirst(order, first) && i < |order|
    ensures |order[i]| >= first
  {
    assert Follows(order, first, i);
  }

  lemma DifferentEntries(c: Copy, j: nat, k: nat)
    requires Distinct(c.order) && j < k < |c.order|
    ensures c.t + c.order[k] != c.t + c.order[j]
  {
    if c.t + c.order[k] == c.t + c.order[j] {
      SamePath(c.t, c.order[k], c.order[j]);
    }
  }

  lemma LaterIsNotAbove(c: Copy, i: nat, j: nat, m: nat)
    requires c.Given() && i < j < |c.order| && m <= |c.order[i]|
    ensures c.t + c.order[j] != c.t + c.order[i][..m]
  {
    hide IsTree, IsFs, Target, ParentFirst;
    if c.t + c.order[j] == c.t + c.order[i][..m] {
      SamePath(c.t, c.order[j], c.order[i][..m]);
      if m < |c.order[i]| {
        hide Distinct;
        NotAboveEarlier(c.order, c.First(), j, i);
      }
    }
  }

  lemma DirectoryArrives(c: Copy, j: nat)
    requires c.Valid() && c.LandsFrom(0) && j < |c.order| && c.src[c.order[j]].Dir?
    ensures Has(c.Progress(|c.order|), c.t + c.order[j], c.Arrived(c.order[j])) && c.Arrived(c.order[j]).Dir?
  {
    hide IsTree, IsFs, ParentFirst, Distinct, Target, Copy.Progress;
    Placed(c, |c.order|, j);
    assert c.Lands(c.order[j]);
  }

  lemma ShowsLess(c: Copy, i: nat, j: nat, s: Fs)
    requires Covers(c.order, c.src) && j <= i <= |c.order| && Shows(c, i, s)
    ensures Shows(c, j, s)
  {
  }

  lemma WayIsOpen(c: Copy, j: nat, k: nat)
    requires c.Valid() && c.LandsFrom(0) && j < |c.order| && k < |c.order[j]|
    ensures Has(c.Progress(|c.order|), c.t + c.order[j][..k], Dir(true))
  {
    hide IsTree, IsFs, Target, ParentFirst, Distinct, Copy.Progress, Shows;
    var n, s := |c.order|, c.Progress(|c.order|);
    ProgressShows(c, n);
    ShowsLess(c, n, j, s);
    AncestorMade(c, j, k, s);
    if k + 1 < |c.order[j]| {
      AncestorOpen(c, j, k);
    } else {
      assert Init(c.order[j]) == c.order[j][..k];
      assert c.Lands(c.order[j]);
    }
  }

  lemma DirectoryPlace(c: Copy, r: Path)
    requires r in c.src && c.src[r].Dir?
    ensures c.Place(r) == c.t + r
  {
  }

  // ------------------------------------------------------------------- at the end

  lemma ProgressLanded(c: Copy)
    requires c.Valid()
    ensures c.Landed(c.Progress(|c.order|), false)
  {
    hide IsTree, IsFs, ParentFirst, Distinct, Target, Copy.Progress, Copy.Place;
    var s := c.Progress(|c.order|);
    forall i | 0 <= i < |c.order| ensures Has(s, c.Place(c.order[i]), c.Arrived(c.order[i])) {
      Placed(c, |c.order|, i);
    }
    forall p | forall i :: 0 <= i < |c.order| ==> c.Place(c.order[i]) != p ensures Same(c.fs, s, p) {
      Untouched(c, |c.order|, p);
    }
  }

  /** What has landed is in its own place exactly when every entry fits. */
  lemma LandedIsRebuilt(c: Copy, fs': Fs, preserved: bool)
    requires c.Valid() && c.LandsFrom(0) && c.Landed(fs', preserved)
    ensures c.Rebuilt(fs', preserved) <==> c.FitsFrom(0)
  {
    hide IsTree, IsFs, ParentFirst, Distinct, Target, Copy.Place, Copy.Lands, Copy.Fits, Copy.Result;
    if c.FitsFrom(0) {
      forall i | 0 <= i < |c.order| ensures c.Place(c.order[i]) == c.t + c.order[i] {
        FitsIs(c, c.order[i]);
      }
    } else if c.Rebuilt(fs', preserved) {
      var i :| 0 <= i < |c.order| && !c.Fits(c.order[i]);
      assert Has(fs', c.t + c.order[i], c.Result(c.order[i], preserved));
      DirectoryInTheWay(c, c.order[i]);
      forall j | 0 <= j < |c.order| ensures c.Place(c.order[j]) != c.t + c.order[i] {
        DirectoryIsNoPlace(c, c.order[i], c.order[j]);
      }
      ElsewhereSame(c, fs', preserved, c.t + c.order[i]);
    }
  }

  lemma ElsewhereSame(c: Copy, fs': Fs, preserved: bool, p: Path)
    requires Covers(c.order, c.src) && c.Landed(fs', preserved)
    requires forall i :: 0 <= i < |c.order| ==> c.Place(c.order[i]) != p
    ensures Same(c.fs, fs', p)
  {
  }

  lemma DirectoryInTheWay(c: Copy, r: Path)
    requires IsTree(c.src) && r in c.src && c.Lands(r) && !c.Fits(r)
    ensures c.src[r].File? && c.t + r in c.fs && c.fs[c.t + r].Dir? &&
            c.Result(r, true) == c.Result(r, false) == c.src[r]
  {
  }

  lemma DirectoryIsNoPlace(c: Copy, r: Path, q: Path)
    requires IsTree(c.src) && r in c.src && q in c.src && c.Lands(q)
    requires c.src[r].File? && c.t + r in c.fs && c.fs[c.t + r].Dir?
    ensures c.Place(q) != c.t + r
  {
    hide IsTree;
    RootIsDir(c.src);
    if r == q {
      SettledIsNoDir(c.fs, c.t + r, Last(r), c.pushes);
    } else {
      NothingPlacedBelow(c, r, q);
    }
  }

  // ---------------------------------------------------------------- empty destinations

  /** Nothing is below the target, which can be traversed if it is there. */
  ghost predicate Empty(c: Copy) {
    && (forall p :: p in c.fs ==> !(c.t < p))
    && (c.t in c.fs ==> c.fs[c.t] == Dir(true))
  }

  /** Nothing is in the way then. */
  lemma EmptyFits(c: Copy)
    requires c.Given() && Empty(c)
    ensures c.FitsFrom(0) && c.LandsFrom(0)
  {
    hide IsFs, Target, ParentFirst, Distinct;
    forall j | 0 <= j < |c.order| ensures c.Fits(c.order[j]) {
      var r := c.order[j];
      assert r in c.src;
      assert c.t + [] == c.t;
      if r != [] {
        assert c.t < c.t + r;
        assert Init(r) != [] ==> c.t < c.t + Init(r);
      }
    }
    FitsAreLands(c);
  }
}
