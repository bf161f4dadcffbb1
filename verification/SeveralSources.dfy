/**
 Several copies into one directory, each to an entry of its own: all transfers
 come first, and then one permission pass over all of them, the last copy first.
 Both directions of copying share this.
 */
module SeveralSources {
  import opened Wrappers
  import opened Paths
  import opened RemoteFs
  import opened RemotePaths
  import opened MainLoop
  import opened Routes
  import opened Copies
  import opened RecursivePut
  import opened PermissionPass

  // ------------------------------------------------------------------ lists of jobs

  lemma {:induction false} TransfersAppend<S>(env: Env<S>, s: S, a: seq<Job>, b: seq<Job>, remote: bool)
    ensures
      var (s', os) := Transfers(env, s, a, remote);
      var later := Transfers(env, s', b, remote);
      Transfers(env, s, a + b, remote) == if AllGood(os) then (later.0, os + later.1) else (s', os)
    decreases |a|
  {
    hide Perform;
    if a == [] {
      assert a + b == b;
      assert Transfers(env, s, [], remote).1 == [];
      assert [] + Transfers(env, s, b, remote).1 == Transfers(env, s, b, remote).1;
    } else {
      assert (a + b)[1..] == a[1..] + b;
      var (s', o) := Perform(env, s, a[0], remote);
      if o.Good() {
        TransfersAppend(env, s', a[1..], b, remote);
        var rest := Transfers(env, s', a[1..], remote);
        GoodAfterGood(o, rest.1);
        var later := Transfers(env, rest.0, b, remote).1;
        assert [o] + (rest.1 + later) == ([o] + rest.1) + later;
      } else {
        assert ![o][0].Good();
      }
    }
  }

  lemma GoodAppend(a: seq<Outcome>, b: seq<Outcome>)
    ensures AllGood(a + b) <==> AllGood(a) && AllGood(b)
  {
    if AllGood(a + b) {
      forall i | 0 <= i < |a| ensures a[i].Good() {
        assert (a + b)[i] == a[i];
      }
      forall i | 0 <= i < |b| ensures b[i].Good() {
        assert (a + b)[|a| + i] == b[i];
      }
    }
  }

  lemma MovedAppend(a: seq<Outcome>, b: seq<Outcome>)
    ensures AllMoved(a + b) <==> AllMoved(a) && AllMoved(b)
  {
    if AllMoved(a + b) {
      forall i | 0 <= i < |a| ensures a[i].Moved? {
        assert (a + b)[i] == a[i];
      }
      forall i | 0 <= i < |b| ensures b[i].Moved? {
        assert (a + b)[|a| + i] == b[i];
      }
    }
  }

  lemma {:induction false} PostsAppend<S>(env: Env<S>, s: S, a: seq<Job>, b: seq<Job>)
    requires NoStream !in Posts(env, s, a).1
    ensures
      var (s', ps) := Posts(env, s, a);
      var later := Posts(env, s', b);
      Posts(env, s, a + b) == (later.0, ps + later.1)
    decreases |a|
  {
    hide Request;
    if a == [] {
      assert a + b == b;
      assert [] + Posts(env, s, b).1 == Posts(env, s, b).1;
    } else {
      assert (a + b)[1..] == a[1..] + b;
      var (s', o) := Request(env, s, a[0], Post);
      assert !o.NoStream? by {
        assert o in Posts(env, s, a).1;
      }
      var rest := Posts(env, s', a[1..]);
      forall i | 0 <= i < |rest.1| ensures rest.1[i] != NoStream {
        assert Posts(env, s, a).1[i + 1] == rest.1[i];
      }
      PostsAppend(env, s', a[1..], b);
      var later := Posts(env, rest.0, b).1;
      assert [o] + (rest.1 + later) == ([o] + rest.1) + later;
    }
  }

  lemma {:induction false} KeptAppend(a: seq<Job>, b: seq<Job>)
    ensures KeptReversed(a + b) == KeptReversed(b) + KeptReversed(a)
  {
    if b == [] {
      assert a + b == a;
    } else {
      var init := b[..|b| - 1];
      assert (a + b)[..|a + b| - 1] == a + init;
      KeptAppend(a, init);
      var last := if b[|b| - 1].Kept() then [b[|b| - 1]] else [];
      assert last + (KeptReversed(init) + KeptReversed(a)) == (last + KeptReversed(init)) + KeptReversed(a);
    }
  }

  /** The jobs of the first `i` copies. */
  function Concat(js: seq<seq<Job>>, i: nat): seq<Job>
    requires i <= |js|
  {
    if i == 0 then [] else Concat(js, i - 1) + js[i - 1]
  }

  // ------------------------------------------------------------ one copy after the other

  function Over(c: Copy, fs: Fs): Copy {
    c.(fs := fs)
  }

  ghost predicate Beside(a: Path, b: Path) {
    !(a <= b) && !(b <= a)
  }

  /** Copies of different sources to different places, found by texts that lead through the same directories. */
  ghost predicate Siblings(cs: seq<Copy>, fs: Fs, way: set<Path>) {
    && (forall i :: 0 <= i < |cs| ==> Sibling(cs[i], fs, way))
    && (forall i, j :: 0 <= i < j < |cs| ==> Beside(cs[i].t, cs[j].t))
  }

  ghost predicate Sibling(c: Copy, fs: Fs, way: set<Path>) {
    c.fs == fs && c.Valid() && c.order != [] && c.stem != "" && TargetRoute(c.cwd, c.stem) == way
  }

  ghost predicate AllCover(cs: seq<Copy>) {
    forall i :: 0 <= i < |cs| ==> Covers(cs[i].order, cs[i].src)
  }

  lemma SiblingsCover(cs: seq<Copy>, fs: Fs, way: set<Path>)
    requires Siblings(cs, fs, way)
    ensures AllCover(cs)
  {
    forall i | 0 <= i < |cs| ensures Covers(cs[i].order, cs[i].src) {
      assert Sibling(cs[i], fs, way);
    }
  }

  /** The state when the entries of the first `i` copies have been placed. */
  ghost function After(cs: seq<Copy>, fs: Fs, i: nat): Fs
    requires AllCover(cs) && i <= |cs|
  {
    if i == 0 then fs else Over(cs[i - 1], After(cs, fs, i - 1)).Progress(|cs[i - 1].order|)
  }

  ghost predicate AllLand(cs: seq<Copy>, n: nat)
    requires AllCover(cs) && n <= |cs|
  {
    forall i :: 0 <= i < n ==> cs[i].LandsFrom(0)
  }

  // ------------------------------------------------------- a copy over another state

  lemma OverIsValid(c: Copy, fs: Fs)
    requires c.Valid() && Grows(c.fs, fs) && IsFs(fs)
    ensures Over(c, fs).Valid() && Over(c, fs).Given()
  {
    hide IsTree, IsFs, ParentFirst, Distinct, Target;
    TargetGrows(c.fs, fs, c.cwd, c.stem);
  }

  /** What is below the target decides what becomes of an entry. */
  lemma OverIsSame(c: Copy, fs: Fs, r: Path)
    requires SameBelow(c.fs, fs, c.t) && r in c.src
    ensures Over(c, fs).Place(r) == c.Place(r) && Over(c, fs).Arrived(r) == c.Arrived(r)
    ensures Over(c, fs).Lands(r) <==> c.Lands(r)
  {
    assert Same(c.fs, fs, c.t + r);
    if r != [] {
      assert Same(c.fs, fs, c.t + Init(r));
      assert SameBelow(c.fs, fs, c.t + r) by {
        forall p | c.t + r <= p ensures Same(c.fs, fs, p) {
          assert c.t <= p;
        }
      }
      SettlesSame(c.fs, fs, c.t + r, Last(r), c.pushes);
    }
  }

  lemma OverLands(c: Copy, fs: Fs)
    requires SameBelow(c.fs, fs, c.t) && Covers(c.order, c.src)
    ensures Over(c, fs).LandsFrom(0) <==> c.LandsFrom(0)
  {
    hide Copy.Lands;
    forall j | 0 <= j < |c.order| ensures Over(c, fs).Lands(c.order[j]) <==> c.Lands(c.order[j]) {
      OverIsSame(c, fs, c.order[j]);
    }
    assert c.LandsFrom(0) ==> Over(c, fs).LandsFrom(0);
    if Over(c, fs).LandsFrom(0) {
      forall j | 0 <= j < |c.order| ensures c.Lands(c.order[j]) {
        assert Over(c, fs).Lands(Over(c, fs).order[j]);
      }
    }
  }

  // ------------------------------------------------------------ still a file system

  lemma {:induction false} SettledInDirectory(fs: Fs, p: Path, name: string, pushes: nat)
    ensures
      var q := Settle(fs, p, name, pushes);
      q == p || (q != [] && Init(q) in fs && fs[Init(q)].Dir?)
    decreases pushes
  {
    if pushes > 0 && p in fs && fs[p].Dir? {
      SettledInDirectory(fs, p + [name], name, pushes - 1);
    }
  }

  lemma TargetInFs(c: Copy)
    requires c.Valid() && c.stem != ""
    ensures c.t !in c.fs ==> InDirectory(c.fs, c.t)
  {
    hide IsTree, ParentFirst, Distinct, Target, Look, BaseParts;
    if c.t !in c.fs {
      AbsentTarget(c.fs, c.cwd, c.stem, c.t);
    }
  }

  /** The place of an entry is in a directory. */
  lemma PlaceInDirectory(c: Copy, j: nat)
    requires c.Valid() && c.stem != "" && c.LandsFrom(0) && j < |c.order|
    ensures c.Place(c.order[j]) in c.fs || InDirectory(c.Progress(|c.order|), c.Place(c.order[j]))
  {
    hide IsTree, ParentFirst, Distinct, Target, Copy.Progress, Copy.LandsFrom, Shows, Above;
    var r, s := c.order[j], c.Progress(|c.order|);
    ProgressGrowsAll(c);
    if r == [] {
      TargetInFs(c);
      assert c.t + r == c.t;
    } else {
      WayIsOpen(c, j, |r| - 1);
      assert Init(r) == r[..|r| - 1];
      assert Init(c.t + r) == c.t + Init(r);
      SettledInDirectory(c.fs, c.t + r, Last(r), c.pushes);
    }
  }

  lemma ProgressGrowsAll(c: Copy)
    requires c.Valid() && c.LandsFrom(0)
    ensures Grows(c.fs, c.Progress(|c.order|))
  {
    hide IsTree, IsFs, ParentFirst, Distinct, Target, Copy.Progress, Copy.Lands;
    ProgressGrows(c, |c.order|);
  }

  lemma ProgressIsFs(c: Copy)
    requires c.Valid() && c.stem != "" && c.LandsFrom(0)
    ensures IsFs(c.Progress(|c.order|))
  {
    hide IsTree, ParentFirst, Distinct, Target, Copy.Progress, Copy.LandsFrom, Copy.Place;
    var s := c.Progress(|c.order|);
    ProgressGrowsAll(c);
    forall p | p in s ensures InDirectory(s, p) {
      if p in c.fs {
        assert InDirectory(c.fs, p);
      } else if j :| 0 <= j < |c.order| && c.Place(c.order[j]) == p {
        PlaceInDirectory(c, j);
      } else {
        Untouched(c, |c.order|, p);
      }
    }
  }

  // ---------------------------------------------------------- the state after the transfers

  ghost predicate Unrelated(cs: seq<Copy>, a: nat, b: nat, p: Path)
    requires a <= b <= |cs|
  {
    forall j :: a <= j < b ==> !(cs[j].t <= p)
  }

  lemma BesideBelow(a: Path, b: Path, p: Path)
    requires Beside(a, b) && b <= p
    ensures !(a <= p)
  {
    if a <= p {
      PrefixesCompare(a, b, p);
    }
  }

  /** What is below the place of one copy is unrelated to the others. */
  lemma BelowIsUnrelated(cs: seq<Copy>, fs: Fs, way: set<Path>, i: nat, p: Path, a: nat, b: nat)
    requires Siblings(cs, fs, way) && i < |cs| && cs[i].t <= p && a <= b <= |cs| && !(a <= i < b)
    ensures Unrelated(cs, a, b, p)
  {
    hide Sibling;
    forall j | a <= j < b ensures !(cs[j].t <= p) {
      assert Beside(cs[j].t, cs[i].t) by {
        if j < i {
          assert Beside(cs[j].t, cs[i].t);
        } else {
          assert Beside(cs[i].t, cs[j].t);
        }
      }
      BesideBelow(cs[j].t, cs[i].t, p);
    }
  }

  ghost predicate Steady(cs: seq<Copy>, fs: Fs, i: nat)
    requires AllCover(cs) && i <= |cs|
  {
    IsFs(After(cs, fs, i)) && Grows(fs, After(cs, fs, i))
  }

  lemma GrowsOn(a: Fs, b: Fs, c: Fs)
    requires Grows(a, b) && Grows(b, c)
    ensures Grows(a, c)
  {
  }

  lemma {:induction false} AfterElsewhere(cs: seq<Copy>, fs: Fs, a: nat, b: nat, p: Path)
    requires AllCover(cs) && a <= b <= |cs| && Unrelated(cs, a, b, p)
    ensures Same(After(cs, fs, a), After(cs, fs, b), p)
    decreases b - a
  {
    if a < b {
      AfterElsewhere(cs, fs, a, b - 1, p);
      var c := Over(cs[b - 1], After(cs, fs, b - 1));
      hide Copy.Place, Copy.Progress;
      assert !(cs[b - 1].t <= p);
      forall j | 0 <= j < |c.order| ensures c.Place(c.order[j]) != p {
        PlaceIsBelow(c, c.order[j]);
      }
      Untouched(c, |c.order|, p);
    }
  }

  /** When its turn comes, a copy finds what is below its place as it was. */
  lemma UntouchedTurn(cs: seq<Copy>, fs: Fs, way: set<Path>, i: nat)
    requires Siblings(cs, fs, way) && AllCover(cs) && i < |cs|
    ensures SameBelow(fs, After(cs, fs, i), cs[i].t)
  {
    hide Sibling, After;
    forall p | cs[i].t <= p ensures Same(fs, After(cs, fs, i), p) {
      BelowIsUnrelated(cs, fs, way, i, p, 0, i);
      AfterElsewhere(cs, fs, 0, i, p);
      NothingAfterNone(cs, fs);
    }
  }

  lemma NothingAfterNone(cs: seq<Copy>, fs: Fs)
    requires AllCover(cs)
    ensures After(cs, fs, 0) == fs
  {
  }

  /** A copy whose turn has come, and what it leaves behind. */
  lemma Turn(cs: seq<Copy>, fs: Fs, way: set<Path>, i: nat)
    requires Siblings(cs, fs, way) && AllCover(cs) && i < |cs| && Steady(cs, fs, i)
    ensures
      var c := Over(cs[i], After(cs, fs, i));
      && c.Valid() && (c.LandsFrom(0) <==> cs[i].LandsFrom(0))
      && (cs[i].LandsFrom(0) ==> Steady(cs, fs, i + 1))
      && After(cs, fs, i + 1) == c.Progress(|c.order|)
  {
    assert Sibling(cs[i], fs, way);
    hide IsTree, IsFs, ParentFirst, Distinct, Target, Copy.Progress, Copy.LandsFrom, Grows;
    var c := Over(cs[i], After(cs, fs, i));
    OverIsValid(cs[i], After(cs, fs, i));
    UntouchedTurn(cs, fs, way, i);
    OverLands(cs[i], After(cs, fs, i));
    if c.LandsFrom(0) {
      ProgressIsFs(c);
      ProgressGrowsAll(c);
      GrowsOn(fs, After(cs, fs, i), After(cs, fs, i + 1));
    }
  }

  lemma {:induction false} AllTurns(cs: seq<Copy>, fs: Fs, way: set<Path>, i: nat)
    requires Siblings(cs, fs, way) && AllCover(cs) && i <= |cs| && AllLand(cs, i) && IsFs(fs)
    ensures Steady(cs, fs, i)
  {
    hide Siblings, IsFs, Copy.LandsFrom;
    if i == 0 {
    } else {
      AllTurns(cs, fs, way, i - 1);
      Turn(cs, fs, way, i - 1);
    }
  }

  // --------------------------------------------------------------------- transfers

  /** Over whatever state, the transfers of the jobs carry out the copy, as far as its entries can land. */
  ghost predicate CarriesOut(env: Env<Fs>, remote: bool, c: Copy, js: seq<Job>)
    requires Covers(c.order, c.src)
  {
    forall fs :: Over(c, fs).Valid() ==>
      var r := Transfers(env, fs, js, remote);
      && (AllGood(r.1) <==> Over(c, fs).LandsFrom(0))
      && (Over(c, fs).LandsFrom(0) ==> r.0 == Over(c, fs).Progress(|c.order|))
  }

  ghost predicate AllCarriedOut(env: Env<Fs>, remote: bool, cs: seq<Copy>, js: seq<seq<Job>>)
    requires AllCover(cs)
  {
    |js| == |cs| && forall i :: 0 <= i < |cs| ==> CarriesOut(env, remote, cs[i], js[i])
  }

  /** All transfers of all copies succeed exactly when every entry of each can land. */
  lemma {:induction false} TransfersOfAll(env: Env<Fs>, remote: bool, cs: seq<Copy>, fs: Fs, way: set<Path>,
                                          js: seq<seq<Job>>, i: nat)
    requires Siblings(cs, fs, way) && AllCover(cs) && IsFs(fs) && AllCarriedOut(env, remote, cs, js) && i <= |cs|
    ensures
      var r := Transfers(env, fs, Concat(js, i), remote);
      (AllGood(r.1) <==> AllLand(cs, i)) && (AllLand(cs, i) ==> r.0 == After(cs, fs, i))
  {
    hide Siblings, IsFs, Copy.LandsFrom, Transfers, AllGood, After, Steady, Copy.Valid;
    if i == 0 {
      TransfersOfNone(env, fs, remote);
      NothingAfterNone(cs, fs);
      assert AllGood([]) by {
        NothingBad();
      }
    } else {
      TransfersOfAll(env, remote, cs, fs, way, js, i - 1);
      var before := Transfers(env, fs, Concat(js, i - 1), remote);
      TransfersAppend(env, fs, Concat(js, i - 1), js[i - 1], remote);
      assert AllLand(cs, i) <==> AllLand(cs, i - 1) && cs[i - 1].LandsFrom(0);
      if AllLand(cs, i - 1) {
        AllTurns(cs, fs, way, i - 1);
        Turn(cs, fs, way, i - 1);
        assert CarriesOut(env, remote, cs[i - 1], js[i - 1]);
        GoodAppend(before.1, Transfers(env, before.0, js[i - 1], remote).1);
      }
    }
  }

  lemma NothingBad()
    ensures AllGood([])
  {
  }

  // -------------------------------------------------------------------- where all is

  ghost predicate SomePlace(cs: seq<Copy>, n: nat, p: Path)
    requires AllCover(cs) && n <= |cs|
  {
    exists i, j :: 0 <= i < n && 0 <= j < |cs[i].order| && cs[i].Place(cs[i].order[j]) == p
  }

  ghost predicate EntryIn(c: Copy, fs': Fs, j: nat, preserved: bool)
    requires Covers(c.order, c.src) && j < |c.order|
  {
    Has(fs', c.Place(c.order[j]), c.Result(c.order[j], preserved))
  }

  ghost predicate EntriesIn(c: Copy, fs': Fs, preserved: bool)
    requires Covers(c.order, c.src)
  {
    forall j :: 0 <= j < |c.order| ==> EntryIn(c, fs', j, preserved)
  }

  ghost predicate NoPlace(c: Copy, p: Path)
    requires Covers(c.order, c.src)
  {
    forall j :: 0 <= j < |c.order| ==> c.Place(c.order[j]) != p
  }

  /** Each entry of each copy is in its place, and nothing else is different. */
  ghost predicate AllLanded(cs: seq<Copy>, n: nat, fs: Fs, fs': Fs, preserved: bool)
    requires AllCover(cs) && n <= |cs|
  {
    && (forall i, j :: 0 <= i < n && 0 <= j < |cs[i].order| ==> EntryIn(cs[i], fs', j, preserved))
    && (forall p {:trigger Same(fs, fs', p)} :: !SomePlace(cs, n, p) ==> Same(fs, fs', p))
  }

  lemma TurnLanded(cs: seq<Copy>, fs: Fs, way: set<Path>, i: nat)
    requires Siblings(cs, fs, way) && AllCover(cs) && i < |cs| && Steady(cs, fs, i)
    ensures EntriesIn(cs[i], After(cs, fs, i + 1), false)
    ensures forall p {:trigger Same(After(cs, fs, i), After(cs, fs, i + 1), p)} ::
              NoPlace(cs[i], p) ==> Same(After(cs, fs, i), After(cs, fs, i + 1), p)
  {
    var c, s, s' := Over(cs[i], After(cs, fs, i)), After(cs, fs, i), After(cs, fs, i + 1);
    assert Sibling(cs[i], fs, way);
    Turn(cs, fs, way, i);
    UntouchedTurn(cs, fs, way, i);
    hide Siblings, After, Copy.Place, Copy.Progress, Copy.Arrived, Steady, Copy.Valid;
    ProgressLanded(c);
    forall j | 0 <= j < |cs[i].order| ensures EntryIn(cs[i], s', j, false) {
      OverIsSame(cs[i], s, cs[i].order[j]);
      assert Has(s', c.Place(c.order[j]), c.Result(c.order[j], false));
    }
    forall p | NoPlace(cs[i], p) ensures Same(s, s', p) {
      forall j | 0 <= j < |c.order| ensures c.Place(c.order[j]) != p {
        OverIsSame(cs[i], s, cs[i].order[j]);
      }
      ElsewhereSame(c, s', false, p);
    }
  }

  lemma OthersPlace(cs: seq<Copy>, fs: Fs, way: set<Path>, i: nat, j: nat, k: nat, l: nat)
    requires Siblings(cs, fs, way) && AllCover(cs) && i < |cs| && k < |cs| && i != k
    requires j < |cs[i].order| && l < |cs[k].order|
    ensures cs[i].Place(cs[i].order[j]) != cs[k].Place(cs[k].order[l])
  {
    hide Sibling, Copy.Place;
    PlaceIsBelow(cs[i], cs[i].order[j]);
    PlaceIsBelow(cs[k], cs[k].order[l]);
    if i < k {
      BesideBelow(cs[i].t, cs[k].t, cs[k].Place(cs[k].order[l]));
    } else {
      BesideBelow(cs[k].t, cs[i].t, cs[i].Place(cs[i].order[j]));
    }
  }

  lemma {:induction false} AfterLanded(cs: seq<Copy>, fs: Fs, way: set<Path>, n: nat)
    requires Siblings(cs, fs, way) && AllCover(cs) && n <= |cs| && AllLand(cs, n) && IsFs(fs)
    ensures AllLanded(cs, n, fs, After(cs, fs, n), false)
  {
    hide Siblings, IsFs, Copy.LandsFrom, Copy.Place, Steady, After, EntryIn;
    if n == 0 {
      NothingAfterNone(cs, fs);
    } else {
      AfterLanded(cs, fs, way, n - 1);
      AllTurns(cs, fs, way, n - 1);
      TurnLanded(cs, fs, way, n - 1);
      var s, s' := After(cs, fs, n - 1), After(cs, fs, n);
      forall i, j | 0 <= i < n && 0 <= j < |cs[i].order| ensures EntryIn(cs[i], s', j, false) {
        if i < n - 1 {
          assert EntryIn(cs[i], s, j, false);
          EntryStays(cs, fs, way, i, j, n - 1);
        }
      }
      forall p | !SomePlace(cs, n, p) ensures Same(fs, s', p) {
        NoPlaceBefore(cs, n, p);
        assert Same(fs, s, p) && Same(s, s', p);
      }
    }
  }

  lemma NoPlaceBefore(cs: seq<Copy>, n: nat, p: Path)
    requires AllCover(cs) && 0 < n <= |cs| && !SomePlace(cs, n, p)
    ensures !SomePlace(cs, n - 1, p)
    ensures NoPlace(cs[n - 1], p)
  {
    hide Copy.Place;
  }

  lemma EntryStays(cs: seq<Copy>, fs: Fs, way: set<Path>, i: nat, j: nat, k: nat)
    requires Siblings(cs, fs, way) && AllCover(cs) && i < k < |cs| && j < |cs[i].order| && Steady(cs, fs, k)
    requires EntryIn(cs[i], After(cs, fs, k), j, false)
    ensures EntryIn(cs[i], After(cs, fs, k + 1), j, false)
  {
    TurnLanded(cs, fs, way, k);
    forall l | 0 <= l < |cs[k].order| ensures cs[k].Place(cs[k].order[l]) != cs[i].Place(cs[i].order[j]) {
      OthersPlace(cs, fs, way, i, j, k, l);
    }
    hide Siblings, Copy.Place, Steady, After;
    assert NoPlace(cs[k], cs[i].Place(cs[i].order[j]));
    assert Same(After(cs, fs, k), After(cs, fs, k + 1), cs[i].Place(cs[i].order[j]));
  }

  // --------------------------------------------------------------- the permission pass

  /** The state when the pass over the copies from `i` on is done. */
  ghost function AllPassed(cs: seq<Copy>, start: Fs, i: nat): Fs
    requires AllCover(cs) && i <= |cs|
    decreases |cs| - i
  {
    if i == |cs| then start else Passed(cs[i], AllPassed(cs, start, i + 1), 0)
  }

  /** From whatever state, the pass over the jobs sets the permissions of the directories that it reaches. */
  ghost predicate SetsPermissions(env: Env<Fs>, c: Copy, js: seq<Job>)
    requires Covers(c.order, c.src)
  {
    forall start {:trigger Passed(c, start, 0)} :: SameKinds(c.fs, start) && NoFileFor(c, start) ==>
      var r := Posts(env, start, KeptReversed(js));
      NoStream !in r.1 && r.0 == Passed(c, start, 0) && (AllMoved(r.1) <==> AllOk(c, start, |c.order|))
  }

  ghost predicate AllSetPermissions(env: Env<Fs>, cs: seq<Copy>, js: seq<seq<Job>>)
    requires AllCover(cs)
  {
    |js| == |cs| && forall i :: 0 <= i < |cs| ==> SetsPermissions(env, cs[i], js[i])
  }

  lemma KindsOn(a: Fs, b: Fs, c: Fs)
    requires SameKinds(a, b) && SameKinds(b, c)
    ensures SameKinds(a, c)
  {
  }

  lemma {:induction false} AllPassedKinds(cs: seq<Copy>, start: Fs, i: nat)
    requires AllCover(cs) && i <= |cs|
    ensures SameKinds(start, AllPassed(cs, start, i))
    decreases |cs| - i
  {
    hide SameKinds, Passed;
    if i == |cs| {
      assert SameKinds(start, start) by {
        KindsAreKinds(start);
      }
    } else {
      AllPassedKinds(cs, start, i + 1);
      PassedKinds(cs[i], AllPassed(cs, start, i + 1), 0);
      KindsOn(start, AllPassed(cs, start, i + 1), AllPassed(cs, start, i));
    }
  }

  lemma KindsAreKinds(fs: Fs)
    ensures SameKinds(fs, fs)
  {
  }

  /** Every directory of the copy is there. */
  ghost predicate AllThere(c: Copy, s: Fs)
    requires Covers(c.order, c.src)
  {
    forall j :: 0 <= j < |c.order| && c.src[c.order[j]].Dir? ==> c.t + c.order[j] in s && s[c.t + c.order[j]].Dir?
  }

  lemma ThereIsNoFile(c: Copy, s: Fs, s': Fs)
    requires Covers(c.order, c.src) && AllThere(c, s) && SameKinds(s, s')
    ensures NoFileFor(c, s')
  {
  }

  /** Every directory of each copy is visited in its turn. */
  ghost predicate AllVisited(cs: seq<Copy>, start: Fs, n: nat)
    requires AllCover(cs) && n <= |cs|
  {
    forall i :: 0 <= i < n ==> AllOk(cs[i], AllPassed(cs, start, i + 1), |cs[i].order|)
  }

  lemma AllVisitedStep(cs: seq<Copy>, start: Fs, n: nat)
    requires AllCover(cs) && n < |cs|
    ensures AllVisited(cs, start, n + 1) <==>
            AllVisited(cs, start, n) && AllOk(cs[n], AllPassed(cs, start, n + 1), |cs[n].order|)
  {
    hide AllOk;
  }

  lemma NoneVisited(cs: seq<Copy>, start: Fs)
    requires AllCover(cs)
    ensures AllVisited(cs, start, 0)
  {
  }

  lemma {:induction false} PassOfAll(env: Env<Fs>, cs: seq<Copy>, fs: Fs, start: Fs, js: seq<seq<Job>>, i: nat)
    requires AllCover(cs) && AllSetPermissions(env, cs, js) && i <= |cs|
    requires forall k :: 0 <= k < |cs| ==> cs[k].fs == fs && AllThere(cs[k], start)
    requires SameKinds(fs, start)
    ensures
      var r := Posts(env, AllPassed(cs, start, i), KeptReversed(Concat(js, i)));
      NoStream !in r.1 && r.0 == AllPassed(cs, start, 0) && (AllMoved(r.1) <==> AllVisited(cs, start, i))
    decreases i
  {
    hide SameKinds, Passed, KeptReversed, Posts, AllOk, AllThere, NoFileFor, AllVisited;
    if i == 0 {
      PostsOfNone(env, AllPassed(cs, start, 0));
      NoneVisited(cs, start);
    } else {
      var s, c := AllPassed(cs, start, i), cs[i - 1];
      PassOfAll(env, cs, fs, start, js, i - 1);
      AllPassedKinds(cs, start, i);
      KindsOn(fs, start, s);
      assert AllThere(c, start) && c.fs == fs;
      ThereIsNoFile(c, start, s);
      assert SetsPermissions(env, c, js[i - 1]);
      assert AllPassed(cs, start, i - 1) == Passed(c, s, 0);
      KeptAppend(Concat(js, i - 1), js[i - 1]);
      PostsAppend(env, s, KeptReversed(js[i - 1]), KeptReversed(Concat(js, i - 1)));
      var first := Posts(env, s, KeptReversed(js[i - 1])).1;
      MovedAppend(first, Posts(env, AllPassed(cs, start, i - 1), KeptReversed(Concat(js, i - 1))).1);
      AllVisitedStep(cs, start, i - 1);
    }
  }

  // ------------------------------------------------------------------ the way stays open

  /** Entry `j` of copy `i` is a directory that the source has closed, on the way to the targets. */
  ghost predicate OnTheWay(cs: seq<Copy>, way: set<Path>, i: nat, j: nat)
    requires AllCover(cs) && i < |cs| && j < |cs[i].order|
  {
    cs[i].src[cs[i].order[j]] == Dir(false) && cs[i].t + cs[i].order[j] in way
  }

  /**
   The way leads through no closed directory of any copy, except perhaps the
   root of the first, which is visited last.
   */
  ghost predicate AllPassable(cs: seq<Copy>, way: set<Path>)
    requires AllCover(cs)
  {
    forall i, j :: 0 <= i < |cs| && 0 <= j < |cs[i].order| && OnTheWay(cs, way, i, j) ==> i == 0 && j == 0
  }

  lemma {:induction false} AllPassedElsewhere(cs: seq<Copy>, start: Fs, a: nat, b: nat, p: Path)
    requires AllCover(cs) && a <= b <= |cs| && Unrelated(cs, a, b, p)
    ensures Same(AllPassed(cs, start, b), AllPassed(cs, start, a), p)
    decreases b - a
  {
    if a < b {
      AllPassedElsewhere(cs, start, a + 1, b, p);
      var c := cs[a];
      hide Passed;
      assert !(c.t <= p);
      forall j | 0 <= j < |c.order| && c.src[c.order[j]].Dir? ensures c.t + c.order[j] != p {
        assert c.t <= c.t + c.order[j];
      }
      PassedElsewhere(c, AllPassed(cs, start, a + 1), 0, p);
    }
  }

  lemma PassableAlone(cs: seq<Copy>, fs: Fs, way: set<Path>, i: nat)
    requires Siblings(cs, fs, way) && AllCover(cs) && i < |cs| && AllPassable(cs, way)
    ensures Passable(cs[i])
  {
    var c := cs[i];
    assert Sibling(c, fs, way);
    hide TargetRoute, IsTree, IsFs, ParentFirst, Distinct, Target;
    forall d | d in TargetRoute(c.cwd, c.stem) ensures !ClosedBelow(c, d) {
      if ClosedBelow(c, d) {
        var r := d[|c.t|..];
        assert d == c.t + r;
        var j :| 0 <= j < |c.order| && c.order[j] == r;
        assert OnTheWay(cs, way, i, j);
        FirstIsRoot(c);
      }
    }
  }

  /** Nothing of a copy but the first closes the way. */
  lemma {:induction false} WayAfterCopy(cs: seq<Copy>, fs: Fs, way: set<Path>, i: nat, start: Fs, u: nat)
    requires Siblings(cs, fs, way) && AllCover(cs) && 0 < i < |cs| && AllPassable(cs, way)
    requires u <= |cs[i].order| && Open(start, way)
    ensures Open(Passed(cs[i], start, u), way)
    decreases |cs[i].order| - u
  {
    hide Siblings, VisitOk;
    if u == |cs[i].order| {
    } else {
      WayAfterCopy(cs, fs, way, i, start, u + 1);
      var c := cs[i];
      if VisitOk(c, start, u) {
        assert c.src[c.order[u]].Dir? by {
          VisitedIsDir(c, start, u);
        }
        assert !OnTheWay(cs, way, i, u);
      }
    }
  }

  lemma VisitedIsDir(c: Copy, start: Fs, i: nat)
    requires Covers(c.order, c.src) && i < |c.order| && VisitOk(c, start, i)
    ensures c.src[c.order[i]].Dir?
  {
  }

  lemma {:induction false} WayStaysOpenForAll(cs: seq<Copy>, fs: Fs, way: set<Path>, start: Fs, i: nat)
    requires Siblings(cs, fs, way) && AllCover(cs) && 0 < i <= |cs| && AllPassable(cs, way) && Open(start, way)
    ensures Open(AllPassed(cs, start, i), way)
    decreases |cs| - i
  {
    hide Siblings, AllPassable, Open, Passed;
    if i == |cs| {
    } else {
      WayStaysOpenForAll(cs, fs, way, start, i + 1);
      WayAfterCopy(cs, fs, way, i, AllPassed(cs, start, i + 1), 0);
    }
  }

  /** What is reached before the pass is reached when the turn of its copy comes. */
  lemma ReachedInTurn(cs: seq<Copy>, fs: Fs, way: set<Path>, start: Fs, i: nat, j: nat)
    requires Siblings(cs, fs, way) && AllCover(cs) && i < |cs| && j < |cs[i].order|
    ensures Reached(AllPassed(cs, start, i + 1), cs[i].t, cs[i].order[j]) <==> Reached(start, cs[i].t, cs[i].order[j])
  {
    hide IsTree, IsFs, ParentFirst, Distinct, Target, TargetRoute, AllPassed, Look, Siblings;
    var c, r := cs[i], cs[i].order[j];
    AllAreSiblings(cs, fs, way);
    assert r in c.src;
    EntryIsNamed(c.src, r);
    var s := AllPassed(cs, start, i + 1);
    NothingPassed(cs, start);
    forall m | 0 <= m <= |r| ensures Same(start, s, c.t + r[..m]) {
      BelowIsUnrelated(cs, fs, way, i, c.t + r[..m], i + 1, |cs|);
      AllPassedElsewhere(cs, start, i + 1, |cs|, c.t + r[..m]);
    }
    LookFrame(start, s, c.t, r);
    assert r[..|r|] == r;
    assert Same(start, s, c.t + r[..|r|]);
  }

  /** Before the pass, every directory of the copy can be reached. */
  ghost predicate AllReachable(c: Copy, s: Fs)
    requires Covers(c.order, c.src)
  {
    forall j :: 0 <= j < |c.order| && c.src[c.order[j]].Dir? ==> Reached(s, c.t, c.order[j])
  }

  ghost predicate PassStarts(cs: seq<Copy>, start: Fs, way: set<Path>)
    requires AllCover(cs)
  {
    Open(start, way) && forall i :: 0 <= i < |cs| ==> AllReachable(cs[i], start)
  }

  lemma TurnOk(cs: seq<Copy>, fs: Fs, way: set<Path>, start: Fs, i: nat)
    requires Siblings(cs, fs, way) && AllCover(cs) && i < |cs| && PassStarts(cs, start, way) && AllPassable(cs, way)
    ensures AllOk(cs[i], AllPassed(cs, start, i + 1), |cs[i].order|)
  {
    var c, s := cs[i], AllPassed(cs, start, i + 1);
    assert Sibling(c, fs, way) && AllReachable(c, start);
    hide IsTree, IsFs, ParentFirst, Distinct, Target, TargetRoute, Passed, Look, Siblings, Open, Reached, AllPassable,
         Passable, AllOk;
    WayStaysOpenForAll(cs, fs, way, start, i + 1);
    forall j | 0 <= j < |c.order| && c.src[c.order[j]].Dir? ensures Reached(s, c.t, c.order[j]) {
      ReachedInTurn(cs, fs, way, start, i, j);
    }
    PassableAlone(cs, fs, way, i);
    AllOkIff(c, s);
  }

  /** A closed directory on the way, other than the last to be visited, makes a visit fail. */
  lemma SomeTurnFails(cs: seq<Copy>, fs: Fs, way: set<Path>, start: Fs)
    requires Siblings(cs, fs, way) && AllCover(cs) && !AllPassable(cs, way)
    ensures !AllVisited(cs, start, |cs|)
  {
    hide IsTree, IsFs, ParentFirst, Distinct, Target, TargetRoute, Passed, Look, Open, Reached, VisitOk, Siblings;
    var i, j :| 0 <= i < |cs| && 0 <= j < |cs[i].order| && OnTheWay(cs, way, i, j) && !(i == 0 && j == 0);
    if AllVisited(cs, start, |cs|) {
      assert AllOk(cs[i], AllPassed(cs, start, i + 1), |cs[i].order|);
      assert AllOk(cs[0], AllPassed(cs, start, 1), |cs[0].order|);
      AllAreSiblings(cs, fs, way);
      var p := cs[i].t + cs[i].order[j];
      if i == 0 {
        OkIsSet(cs[0], AllPassed(cs, start, 1), 1, j);
      } else {
        OkIsSet(cs[i], AllPassed(cs, start, i + 1), 0, j);
        BelowIsUnrelated(cs, fs, way, i, p, 1, i);
        AllPassedElsewhere(cs, start, 1, i, p);
        RootsApart(cs, fs, way, i, p);
        PassedElsewhere(cs[0], AllPassed(cs, start, 1), 1, p);
      }
      FirstIsRoot(cs[0]);
      FirstVisitOk(cs[0], AllPassed(cs, start, 1));
      ClosedIsNotOpen(Passed(cs[0], AllPassed(cs, start, 1), 1), way, p);
    }
  }

  lemma AllAreSiblings(cs: seq<Copy>, fs: Fs, way: set<Path>)
    requires Siblings(cs, fs, way)
    ensures forall i :: 0 <= i < |cs| ==> cs[i].Given() && cs[i].order != [] && cs[i].stem != ""
    ensures forall i :: 0 <= i < |cs| ==> TargetRoute(cs[i].cwd, cs[i].stem) == way
  {
    hide IsTree, IsFs, ParentFirst, Distinct, Target, TargetRoute;
    forall i | 0 <= i < |cs|
      ensures cs[i].Given() && cs[i].order != [] && cs[i].stem != "" && TargetRoute(cs[i].cwd, cs[i].stem) == way
    {
      assert Sibling(cs[i], fs, way);
    }
  }

  lemma RootsApart(cs: seq<Copy>, fs: Fs, way: set<Path>, i: nat, p: Path)
    requires Siblings(cs, fs, way) && AllCover(cs) && 0 < i < |cs| && cs[i].t <= p
    ensures forall k :: 1 <= k < |cs[0].order| && cs[0].src[cs[0].order[k]].Dir? ==> cs[0].t + cs[0].order[k] != p
  {
    BelowIsUnrelated(cs, fs, way, i, p, 0, 1);
    assert !(cs[0].t <= p);
    forall k | 1 <= k < |cs[0].order| && cs[0].src[cs[0].order[k]].Dir? ensures cs[0].t + cs[0].order[k] != p {
      assert cs[0].t <= cs[0].t + cs[0].order[k];
    }
  }

  lemma ClosedIsNotOpen(s: Fs, way: set<Path>, p: Path)
    requires p in way && Has(s, p, Dir(false))
    ensures !Open(s, way)
  {
  }

  lemma FirstVisitOk(c: Copy, start: Fs)
    requires Covers(c.order, c.src) && c.order != [] && c.src[c.order[0]].Dir? && AllOk(c, start, |c.order|)
    ensures Open(Passed(c, start, 1), TargetRoute(c.cwd, c.stem))
  {
    assert VisitOk(c, start, 0);
  }

  /** From a state in which they are all reached, all directories are visited exactly when the way is passable. */
  lemma AllVisitedIff(cs: seq<Copy>, fs: Fs, way: set<Path>, start: Fs)
    requires Siblings(cs, fs, way) && AllCover(cs) && PassStarts(cs, start, way)
    ensures AllVisited(cs, start, |cs|) <==> AllPassable(cs, way)
  {
    hide Siblings, AllPassable, AllOk, PassStarts;
    if AllPassable(cs, way) {
      forall i | 0 <= i < |cs| ensures AllOk(cs[i], AllPassed(cs, start, i + 1), |cs[i].order|) {
        TurnOk(cs, fs, way, start, i);
      }
    } else {
      SomeTurnFails(cs, fs, way, start);
    }
  }

  // ------------------------------------------------------- from the transfers to the pass

  /** After the transfers, every directory of every copy can be reached. */
  lemma ReachableAfter(cs: seq<Copy>, fs: Fs, way: set<Path>, i: nat)
    requires Siblings(cs, fs, way) && AllCover(cs) && AllLand(cs, |cs|) && IsFs(fs) && i < |cs|
    ensures AllReachable(cs[i], After(cs, fs, |cs|))
  {
    var c, s := cs[i], After(cs, fs, |cs|);
    assert Sibling(c, fs, way);
    AllTurnsAt(cs, fs, way, i);
    Turn(cs, fs, way, i);
    hide IsTree, IsFs, ParentFirst, Distinct, Target, TargetRoute, Look, Siblings, Copy.Progress, Copy.LandsFrom, After,
         Open;
    TransfersReach(Over(c, After(cs, fs, i)));
    forall j | 0 <= j < |c.order| && c.src[c.order[j]].Dir? ensures Reached(s, c.t, c.order[j]) {
      var r := c.order[j];
      assert r in c.src;
      EntryIsNamed(c.src, r);
      assert Reached(After(cs, fs, i + 1), c.t, Over(c, After(cs, fs, i)).order[j]);
      forall m | 0 <= m <= |r| ensures Same(After(cs, fs, i + 1), s, c.t + r[..m]) {
        BelowIsUnrelated(cs, fs, way, i, c.t + r[..m], i + 1, |cs|);
        AfterElsewhere(cs, fs, i + 1, |cs|, c.t + r[..m]);
      }
      LookFrame(After(cs, fs, i + 1), s, c.t, r);
      assert r[..|r|] == r;
      assert Same(After(cs, fs, i + 1), s, c.t + r[..|r|]);
    }
  }

  lemma AllTurnsAt(cs: seq<Copy>, fs: Fs, way: set<Path>, i: nat)
    requires Siblings(cs, fs, way) && AllCover(cs) && AllLand(cs, |cs|) && IsFs(fs) && i <= |cs|
    ensures Steady(cs, fs, i) && AllLand(cs, i)
  {
    hide Siblings, IsFs, Copy.LandsFrom;
    AllTurns(cs, fs, way, i);
  }

  lemma PassStartsAfter(cs: seq<Copy>, fs: Fs, way: set<Path>)
    requires Siblings(cs, fs, way) && AllCover(cs) && AllLand(cs, |cs|) && IsFs(fs) && cs != []
    ensures PassStarts(cs, After(cs, fs, |cs|), way) && SameKinds(fs, After(cs, fs, |cs|))
    ensures forall i :: 0 <= i < |cs| ==> AllThere(cs[i], After(cs, fs, |cs|))
  {
    var s := After(cs, fs, |cs|);
    assert Sibling(cs[0], fs, way);
    hide IsTree, IsFs, ParentFirst, Distinct, Target, TargetRoute, Siblings, Copy.LandsFrom, After, Look;
    AllTurnsAt(cs, fs, way, |cs|);
    TargetIsWalk(fs, cs[0].cwd, cs[0].stem, cs[0].t);
    forall i | 0 <= i < |cs| ensures AllReachable(cs[i], s) && AllThere(cs[i], s) {
      ReachableAfter(cs, fs, way, i);
    }
  }

  // -------------------------------------------------------------------------- the whole

  lemma SetStays(cs: seq<Copy>, fs: Fs, way: set<Path>, start: Fs, i: nat, p: Path)
    requires Siblings(cs, fs, way) && AllCover(cs) && i < |cs| && cs[i].t <= p
    ensures Same(AllPassed(cs, start, i), AllPassed(cs, start, 0), p)
    ensures Same(start, AllPassed(cs, start, i + 1), p)
  {
    hide Siblings, Passed;
    BelowIsUnrelated(cs, fs, way, i, p, 0, i);
    AllPassedElsewhere(cs, start, 0, i, p);
    BelowIsUnrelated(cs, fs, way, i, p, i + 1, |cs|);
    AllPassedElsewhere(cs, start, i + 1, |cs|, p);
  }

  /** Once its copy's turn has come, each entry has its permissions. */
  lemma EntrySet(cs: seq<Copy>, fs: Fs, way: set<Path>, start: Fs, i: nat, j: nat)
    requires Siblings(cs, fs, way) && AllCover(cs) && i < |cs| && j < |cs[i].order|
    requires AllVisited(cs, start, |cs|) && EntryIn(cs[i], start, j, false)
    ensures EntryIn(cs[i], AllPassed(cs, start, 0), j, true)
  {
    var c, s := cs[i], AllPassed(cs, start, i + 1);
    assert Sibling(c, fs, way) && AllOk(c, s, |c.order|);
    hide IsTree, IsFs, ParentFirst, Distinct, Target, TargetRoute, Siblings, Copy.Place, Passed, VisitOk, AllVisited;
    PlaceIsBelow(c, c.order[j]);
    SetStays(cs, fs, way, start, i, c.Place(c.order[j]));
    if c.src[c.order[j]].Dir? {
      assert VisitOk(c, s, j);
      OkIsSet(c, s, 0, j);
      DirectoryPlace(c, c.order[j]);
    } else {
      forall k | 0 <= k < |c.order| && c.src[c.order[k]].Dir? ensures c.t + c.order[k] != c.Place(c.order[j]) {
        DistinctPlaces(c, c.order[j], c.order[k]);
        DirectoryPlace(c, c.order[k]);
      }
      PassedElsewhere(c, s, 0, c.Place(c.order[j]));
    }
  }

  lemma {:induction false} UnplacedStays(cs: seq<Copy>, start: Fs, i: nat, p: Path)
    requires AllCover(cs) && i <= |cs| && !SomePlace(cs, |cs|, p)
    ensures Same(start, AllPassed(cs, start, i), p)
    decreases |cs| - i
  {
    hide Copy.Place, Passed;
    if i == |cs| {
    } else {
      UnplacedStays(cs, start, i + 1, p);
      var c := cs[i];
      forall j | 0 <= j < |c.order| && c.src[c.order[j]].Dir? ensures c.t + c.order[j] != p {
        DirectoryPlace(c, c.order[j]);
        assert c.Place(c.order[j]) != p;
      }
      PassedElsewhere(c, AllPassed(cs, start, i + 1), 0, p);
    }
  }

  /** When all directories have been visited, each entry of each copy is in its place with its permissions. */
  lemma AllPassedLanded(cs: seq<Copy>, fs: Fs, way: set<Path>, start: Fs)
    requires Siblings(cs, fs, way) && AllCover(cs) && AllVisited(cs, start, |cs|) &&
             AllLanded(cs, |cs|, fs, start, false)
    ensures AllLanded(cs, |cs|, fs, AllPassed(cs, start, 0), true)
  {
    hide Siblings, Copy.Place, Passed, AllVisited, EntryIn;
    var s := AllPassed(cs, start, 0);
    forall i, j | 0 <= i < |cs| && 0 <= j < |cs[i].order| ensures EntryIn(cs[i], s, j, true) {
      EntrySet(cs, fs, way, start, i, j);
    }
    forall p | !SomePlace(cs, |cs|, p) ensures Same(fs, s, p) {
      UnplacedStays(cs, start, 0, p);
      assert Same(fs, start, p);
    }
  }

  /**
   A run over several copies into one directory succeeds exactly when every entry
   of each can land, and, if permissions are set, the way to the targets leads
   through no closed directory of any of them, the first root aside. Then every
   entry is in its place, and nothing else has changed.
   */
  lemma RunOfAll(env: Env<Fs>, cs: seq<Copy>, fs: Fs, way: set<Path>, js: seq<seq<Job>>, preserve: bool)
    requires Siblings(cs, fs, way) && AllCover(cs) && IsFs(fs) && cs != [] && |js| == |cs|
    requires AllCarriedOut(env, MainLoop.Remote(Concat(js, |cs|)), cs, js)
    requires if preserve then AllSetPermissions(env, cs, js) else KeptReversed(Concat(js, |cs|)) == []
    requires |Concat(js, |cs|)| > 1
    requires NoStream !in Transfers(env, fs, Concat(js, |cs|), MainLoop.Remote(Concat(js, |cs|))).1
    requires Run(env, fs, Concat(js, |cs|)).1.Some?
    ensures
      var (fs', r) := Run(env, fs, Concat(js, |cs|));
      && (r.value.0 <==> AllLand(cs, |cs|) && (preserve ==> AllPassable(cs, way)))
      && (r.value.0 ==> AllLanded(cs, |cs|, fs, fs', preserve))
  {
    hide Siblings, Copy.LandsFrom, Transfers, Posts, KeptReversed, Total, After, AllPassed, AllPassable, AllVisited,
         AllLanded, AllGood, IsFs, IsPeak, ByteSum, PassStarts;
    var jobs, remote := Concat(js, |cs|), MainLoop.Remote(Concat(js, |cs|));
    TransfersOfAll(env, remote, cs, fs, way, js, |cs|);
    SuccessMeansAllDone(env, fs, jobs);
    GoodIsAll(env, fs, jobs, remote);
    if AllLand(cs, |cs|) {
      var start := After(cs, fs, |cs|);
      AfterLanded(cs, fs, way, |cs|);
      if preserve {
        PassStartsAfter(cs, fs, way);
        AllFromHere(cs, fs, way);
        assert AllPassed(cs, start, |cs|) == start by {
          NothingPassed(cs, start);
        }
        PassOfAll(env, cs, fs, start, js, |cs|);
        AllVisitedIff(cs, fs, way, start);
        if AllPassable(cs, way) {
          AllPassedLanded(cs, fs, way, start);
        }
      } else {
        PostsOfNone(env, start);
      }
    }
  }

  lemma NothingPassed(cs: seq<Copy>, start: Fs)
    requires AllCover(cs)
    ensures AllPassed(cs, start, |cs|) == start
  {
  }

  lemma AllFromHere(cs: seq<Copy>, fs: Fs, way: set<Path>)
    requires Siblings(cs, fs, way)
    ensures forall i :: 0 <= i < |cs| ==> cs[i].fs == fs
  {
    hide TargetRoute, Copy.Valid;
    forall i | 0 <= i < |cs| ensures cs[i].fs == fs {
      assert Sibling(cs[i], fs, way);
    }
  }

  /** All outcomes are good exactly when there is a good one for each job. */
  lemma GoodIsAll(env: Env<Fs>, fs: Fs, jobs: seq<Job>, remote: bool)
    ensures
      var os := Transfers(env, fs, jobs, remote).1;
      AllGood(os) <==> |os| == |jobs| && forall i :: 0 <= i < |os| ==> os[i].Good()
  {
    hide Transfers;
    StopsAtFirstFailure(env, fs, jobs, remote);
  }

  lemma AllValid(cs: seq<Copy>, fs: Fs, way: set<Path>, i: nat)
    requires Siblings(cs, fs, way) && i < |cs|
    ensures cs[i].Valid()
  {
    hide TargetRoute, Copy.Valid;
    assert Sibling(cs[i], fs, way);
  }

  // ------------------------------------------------------------------ into one directory

  /** The directories on the way to what is in the directory of the given text. */
  function WayInto(cwd: Path, destination: string, d: Path): set<Path> {
    Route(Start(cwd, destination), BaseParts(destination)) + {d}
  }

  lemma RouteInto(fs: Fs, cwd: Path, destination: string, d: Path, name: string)
    requires Find(fs, cwd, destination) == Ok(d) && IsName(name)
    ensures TargetRoute(cwd, JoinRemote(destination, name)) == WayInto(cwd, destination, d)
  {
    var at, parts, text := Start(cwd, destination), BaseParts(destination), JoinRemote(destination, name);
    StemParts(destination);
    SplitName(name);
    JoinRemoteParts(destination, name);
    assert text[|text| - 1] == name[|name| - 1] && name[|name| - 1] in name;
    assert BaseParts(text) == parts + [name] && Start(cwd, text) == at;
    hide Look, Split, BaseParts, JoinRemote, IsAbsolute;
    var all := parts + [name];
    assert DropTrailing(all) == all && Init(all) == parts && Last(all) == name;
    RouteSnoc(at, all);
    if Split(destination) == parts + [""] {
      LookAppend(fs, at, parts, [""]);
      LookOne(fs, Look(fs, at, parts).value, "");
    }
    LookIsWalk(fs, at, parts);
  }

  lemma NamesBeside(d: Path, a: string, b: string)
    requires a != b
    ensures Beside(d + [a], d + [b])
  {
    assert (d + [a])[|d|] == a && (d + [b])[|d|] == b;
  }

  /** The copies go by these names into the directory `d`, whose text is `destination`. */
  ghost predicate Named(cs: seq<Copy>, names: seq<string>, fs: Fs, cwd: Path, destination: string) {
    && |names| == |cs|
    && (forall i :: 0 <= i < |cs| ==> cs[i].fs == fs && cs[i].cwd == cwd && cs[i].Given() && cs[i].order != [])
    && (forall i :: 0 <= i < |cs| ==> IsName(names[i]) && cs[i].stem == JoinRemote(destination, names[i]))
    && (forall i, j :: 0 <= i < j < |cs| ==> names[i] != names[j])
  }

  lemma NamedAreSiblings(cs: seq<Copy>, names: seq<string>, fs: Fs, cwd: Path, destination: string, d: Path)
    requires Named(cs, names, fs, cwd, destination) && Find(fs, cwd, destination) == Ok(d) && fs[d] == Dir(true)
    ensures Siblings(cs, fs, WayInto(cwd, destination, d))
    ensures forall i :: 0 <= i < |cs| ==> cs[i].t == d + [names[i]]
  {
    hide IsTree, IsFs, ParentFirst, Distinct, Target, TargetRoute, Find, WayInto;
    forall i | 0 <= i < |cs| ensures Sibling(cs[i], fs, WayInto(cwd, destination, d)) && cs[i].t == d + [names[i]] {
      NameHasNoSeparator(names[i]);
      TargetInDirectory(fs, cwd, destination, d, names[i]);
      RouteInto(fs, cwd, destination, d, names[i]);
      assert cs[i].stem != "" by {
        JoinedIsNot(destination, names[i]);
      }
    }
    forall i, j | 0 <= i < j < |cs| ensures Beside(cs[i].t, cs[j].t) {
      NamesBeside(d, names[i], names[j]);
    }
  }

  lemma NameHasNoSeparator(name: string)
    requires IsName(name)
    ensures name != "" && '/' !in name
  {
  }

  lemma JoinedIsNot(base: string, name: string)
    requires IsName(name)
    ensures JoinRemote(base, name) != ""
  {
  }
}
