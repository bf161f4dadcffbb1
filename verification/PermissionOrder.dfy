/**
 Why the permission pass goes backwards: closing a directory bars the way to
 everything below it.
 */
module PermissionOrder {
  import opened Wrappers
  import opened Paths
  import opened RemoteFs
  import opened RemotePaths
  import opened MainLoop
  import opened Copies
  import opened RecursivePut
  import opened Routes
  import opened PreservingPut

  // ------------------------------------------------------------------- lists of paths

  /** A closed directory bars what is below it, and everything if the way to the target leads through it. */
  ghost predicate Barred(closed: set<Path>, way: set<Path>, p: Path) {
    exists q :: q in closed && (q < p || q in way)
  }

  /** Every directory of the list can be reached when its turn comes, if each is left open or closed as `opens` says. */
  ghost predicate AllReached(closed: set<Path>, way: set<Path>, order: seq<Path>, opens: Path -> bool)
    decreases |order|
  {
    order == [] ||
    (!Barred(closed, way, order[0]) &&
     AllReached(if opens(order[0]) then closed - {order[0]} else closed + {order[0]}, way, order[1..], opens))
  }

  /** No directory comes before anything below it. */
  ghost predicate ChildrenFirst(order: seq<Path>) {
    forall i, j :: 0 <= i < j < |order| ==> !(order[i] < order[j])
  }

  /** None but the last is on the way. */
  ghost predicate OffTheWay(order: seq<Path>, way: set<Path>) {
    forall i :: 0 <= i < |order| - 1 ==> order[i] !in way
  }

  lemma {:induction false} SafeIsReached(closed: set<Path>, way: set<Path>, order: seq<Path>, opens: Path -> bool)
    requires ChildrenFirst(order) && OffTheWay(order, way)
    requires forall j :: 0 <= j < |order| ==> !Barred(closed, way, order[j])
    ensures AllReached(closed, way, order, opens)
    decreases |order|
  {
    if order == [] {
    } else {
      var next := if opens(order[0]) then closed - {order[0]} else closed + {order[0]};
      var rest := order[1..];
      forall j | 0 <= j < |rest| ensures !Barred(next, way, rest[j]) {
        assert rest[j] == order[j + 1] && !Barred(closed, way, order[j + 1]);
        assert !(order[0] < order[j + 1]) && order[0] !in way;
      }
      assert forall i :: 0 <= i < |rest| ==> rest[i] == order[i + 1];
      SafeIsReached(next, way, rest, opens);
    }
  }

  /** With `shut` closed, what it bars is not reached, as long as only `shut` is ever closed. */
  lemma {:induction false} ClosedBarsTheWay(closed: set<Path>, way: set<Path>, order: seq<Path>, shut: Path, j: nat)
    requires j < |order| && (shut < order[j] || shut in way)
    requires shut in closed || exists i :: 0 <= i < j && order[i] == shut
    ensures !AllReached(closed, way, order, p => p != shut)
    decreases |order|
  {
    if shut in closed && j == 0 {
      assert Barred(closed, way, order[0]);
    } else {
      var opens := (p: Path) => p != shut;
      var next := if opens(order[0]) then closed - {order[0]} else closed + {order[0]};
      assert order[1..][j - 1] == order[j];
      if shut !in next {
        var i :| 0 <= i < j && order[i] == shut;
        assert i != 0 && order[1..][i - 1] == shut;
      }
      ClosedBarsTheWay(next, way, order[1..], shut, j - 1);
    }
  }

  /**
   A list is safe, whatever permissions the directories get, exactly when children
   come first and none but the last is on the way.
   */
  lemma SafeOrders(way: set<Path>, order: seq<Path>)
    ensures (forall opens: Path -> bool :: AllReached({}, way, order, opens)) <==>
            ChildrenFirst(order) && OffTheWay(order, way)
  {
    if ChildrenFirst(order) && OffTheWay(order, way) {
      forall opens: Path -> bool ensures AllReached({}, way, order, opens) {
        SafeIsReached({}, way, order, opens);
      }
    } else {
      var shut, j := SomethingBars(way, order);
      ClosedBarsTheWay({}, way, order, shut, j);
      var opens := (p: Path) => p != shut;
      assert !AllReached({}, way, order, opens);
    }
  }

  lemma SomethingBars(way: set<Path>, order: seq<Path>) returns (shut: Path, j: nat)
    requires !(ChildrenFirst(order) && OffTheWay(order, way))
    ensures j < |order| && (shut < order[j] || shut in way) && exists i :: 0 <= i < j && order[i] == shut
  {
    if !ChildrenFirst(order) {
      var i, k :| 0 <= i < k < |order| && order[i] < order[k];
      shut, j := order[i], k;
    } else {
      var i :| 0 <= i < |order| - 1 && order[i] in way;
      shut, j := order[i], |order| - 1;
    }
  }

  // --------------------------------------------------------------- the requests of a list

  /** Every directory of the list is there, with all directories that lead to it from `t`. */
  ghost predicate Standing(s: Fs, t: Path, visits: seq<Path>) {
    forall i, k :: 0 <= i < |visits| && 0 <= k <= |visits[i]| ==> IsDirectory(s, t + visits[i][..k])
  }

  ghost predicate IsDirectory(s: Fs, p: Path) {
    p in s && s[p].Dir?
  }

  /** Of the directories above those of the list, `closed` has those that are closed. */
  ghost predicate Describes(closed: set<Path>, s: Fs, t: Path, visits: seq<Path>) {
    forall i, k :: 0 <= i < |visits| && 0 <= k < |visits[i]| ==>
      (visits[i][..k] in closed <==> Has(s, t + visits[i][..k], Dir(false)))
  }

  /** The directories of the copy, by path relative to `t`, that the text of the destination leads through. */
  ghost function WayOf(cwd: Path, stem: string, t: Path): set<Path> {
    set d | d in TargetRoute(cwd, stem) && t <= d :: d[|t|..]
  }

  /** Of the directories that the text of the destination leads through, those of `closed` are closed. */
  ghost predicate Led(closed: set<Path>, s: Fs, cwd: Path, stem: string, t: Path) {
    forall d :: d in TargetRoute(cwd, stem) ==>
      IsDirectory(s, d) && (s[d].open <==> !(t <= d && d[|t|..] in closed))
  }

  /** The state `s` comes from `s0`, where the destination led to the directory `t`. */
  ghost predicate ComesFrom(s0: Fs, s: Fs, cwd: Path, stem: string, t: Path) {
    Target(s0, cwd, stem) == Some(t) && IsDirectory(s0, t) && SameKinds(s0, s)
  }

  lemma {:induction false} LookDirectories(s: Fs, t: Path, r: Path)
    requires AreNames(r) && forall k :: 0 <= k <= |r| ==> IsDirectory(s, t + r[..k])
    ensures Look(s, t, r) == if Clear(s, t, r) then Ok(t + r) else Err(PermissionDenied)
    decreases |r|
  {
    if r == [] {
      assert t + r[..0] == t && t + r == t;
    } else {
      var up := Init(r);
      assert up == r[..|r| - 1];
      assert forall k :: 0 <= k <= |up| ==> up[..k] == r[..k];
      assert forall k :: 0 <= k < |up| ==> up[k] == r[k];
      LookDirectories(s, t, up);
      LookSnoc(s, t, r);
      assert IsName(r[|r| - 1]);
      assert t + up + [Last(r)] == t + r && r[..|r|] == r;
      assert IsDirectory(s, t + r[..|up|]) && IsDirectory(s, t + r[..|r|]);
      LookOne(s, t + up, Last(r));
      assert forall k :: 0 <= k < |r| ==> k == |up| || r[..k] == up[..k];
      if !Clear(s, t, up) {
        var k :| 0 <= k < |up| && !(t + up[..k] in s && s[t + up[..k]] == Dir(true));
        assert r[..k] == up[..k];
      }
    }
  }

  /** Permissions are set exactly when no directory above is closed, nor one on the way to the target. */
  lemma SetsIff(s0: Fs, s: Fs, cwd: Path, stem: string, t: Path, r: Path, open: bool)
    requires ComesFrom(s0, s, cwd, stem, t) && AreNames(r) && (stem != "" || r != [])
    requires forall k :: 0 <= k <= |r| ==> IsDirectory(s, t + r[..k])
    ensures
      var changed := SetPermissions(s, cwd, DestinationOf(stem, r), open);
      if Open(s, TargetRoute(cwd, stem)) && Clear(s, t, r) then changed == Ok(s[t + r := Dir(open)]) else changed.Err?
  {
    hide Target, TargetRoute, SetPermissions, DestinationOf, Clear, Open, Look;
    SetsWhere(s0, s, cwd, stem, t, r, open);
    LookDirectories(s, t, r);
    assert r[..|r|] == r && IsDirectory(s, t + r[..|r|]);
  }

  lemma BarredIff(closed: set<Path>, s: Fs, cwd: Path, stem: string, t: Path, visits: seq<Path>)
    requires visits != [] && Standing(s, t, visits) && Describes(closed, s, t, visits) && Led(closed, s, cwd, stem, t)
    ensures Barred(closed, WayOf(cwd, stem, t), visits[0]) <==>
            !(Open(s, TargetRoute(cwd, stem)) && Clear(s, t, visits[0]))
  {
    hide TargetRoute;
    var r, way := visits[0], WayOf(cwd, stem, t);
    if Barred(closed, way, r) {
      var q :| q in closed && (q < r || q in way);
      if q < r {
        assert q == r[..|q|];
        assert Has(s, t + r[..|q|], Dir(false));
      } else {
        var d :| d in TargetRoute(cwd, stem) && t <= d && d[|t|..] == q;
        assert !s[d].open;
      }
    }
    if k :| 0 <= k < |r| && !(t + r[..k] in s && s[t + r[..k]] == Dir(true)) {
      assert IsDirectory(s, t + r[..k]);
      assert r[..k] in closed && r[..k] < r;
    }
    if d :| d in TargetRoute(cwd, stem) && !(d in s && s[d] == Dir(true)) {
      assert d[|t|..] in closed && d[|t|..] in way;
    }
  }

  /** The descriptions stay right when a visit succeeds. */
  lemma AfterVisit(closed: set<Path>, s: Fs, cwd: Path, stem: string, t: Path, visits: seq<Path>, open: bool)
    requires visits != [] && Standing(s, t, visits) && Describes(closed, s, t, visits) && Led(closed, s, cwd, stem, t)
    ensures
      var r := visits[0];
      var s', next := s[t + r := Dir(open)], if open then closed - {r} else closed + {r};
      && SameKinds(s, s')
      && Standing(s', t, visits[1..]) && Describes(next, s', t, visits[1..]) && Led(next, s', cwd, stem, t)
  {
    hide TargetRoute;
    var r, rest := visits[0], visits[1..];
    var s', next := s[t + r := Dir(open)], if open then closed - {r} else closed + {r};
    assert forall i :: 0 <= i < |rest| ==> rest[i] == visits[i + 1];
    assert r[..|r|] == r && IsDirectory(s, t + r[..|r|]);
    forall i, k | 0 <= i < |rest| && 0 <= k <= |rest[i]| ensures IsDirectory(s', t + rest[i][..k]) {
      assert IsDirectory(s, t + visits[i + 1][..k]);
    }
    forall i, k | 0 <= i < |rest| && 0 <= k < |rest[i]|
      ensures rest[i][..k] in next <==> Has(s', t + rest[i][..k], Dir(false))
    {
      var q := visits[i + 1][..k];
      assert q in closed <==> Has(s, t + q, Dir(false));
      if q != r && t + q == t + r {
        SamePath(t, q, r);
      }
    }
    forall d | d in TargetRoute(cwd, stem)
      ensures IsDirectory(s', d) && (s'[d].open <==> !(t <= d && d[|t|..] in next))
    {
      assert IsDirectory(s, d);
      if t <= d {
        assert d == t + d[|t|..];
      }
      assert (t + r)[|t|..] == r && t <= t + r;
    }
  }

  ghost predicate Grants(local: map<string, Node>, root: string, visits: seq<Path>, opens: Path -> bool) {
    forall i :: 0 <= i < |visits| ==> Stores(local, SourceOf(root, visits[i]), Dir(opens(visits[i])))
  }

  ghost predicate Stores(local: map<string, Node>, name: string, n: Node) {
    name in local && local[name] == n
  }

  ghost predicate Directories(src: Fs, visits: seq<Path>) {
    forall i :: 0 <= i < |visits| ==> visits[i] in src && src[visits[i]].Dir? && AreNames(visits[i])
  }

  /** The requests of a pass over the list are all carried out exactly when every directory is reached. */
  lemma {:induction false} PassReaches(closed: set<Path>, s0: Fs, s: Fs, cwd: Path, stem: string, t: Path, src: Fs,
                                       visits: seq<Path>, local: map<string, Node>, root: string, host: string,
                                       opens: Path -> bool)
    requires ComesFrom(s0, s, cwd, stem, t)
    requires Standing(s, t, visits) && Describes(closed, s, t, visits) && Led(closed, s, cwd, stem, t)
    requires Directories(src, visits) && Covers(visits, src) && Grants(local, root, visits, opens)
    requires stem == "" ==> [] !in visits
    ensures
      AllMoved(Posts(ServerEnv(local, cwd), s, JobsFor(root, host, stem, src, true, visits)).1) <==>
      AllReached(closed, WayOf(cwd, stem, t), visits, opens)
    decreases |visits|
  {
    hide ServerEnv, SetPermissions, MakeDirectory, PutFile, DestinationOf, SourceOf, Target, TargetRoute, FileName,
         Barred, Request, WayOf;
    var jobs := JobsFor(root, host, stem, src, true, visits);
    if visits == [] {
    } else {
      var r, rest := visits[0], visits[1..];
      assert forall i :: 0 <= i < |rest| ==> rest[i] == visits[i + 1];
      assert jobs[1..] == JobsFor(root, host, stem, src, true, rest);
      RequestIsSend(local, cwd, s, jobs[0], Post);
      assert Stores(local, SourceOf(root, visits[0]), Dir(opens(visits[0])));
      assert AreNames(visits[0]) && r in visits;
      BarredIff(closed, s, cwd, stem, t, visits);
      SetsIff(s0, s, cwd, stem, t, r, opens(r));
      if !Barred(closed, WayOf(cwd, stem, t), r) {
        AfterVisit(closed, s, cwd, stem, t, visits, opens(r));
        var s', next := s[t + r := Dir(opens(r))], if opens(r) then closed - {r} else closed + {r};
        PassReaches(next, s0, s', cwd, stem, t, src, rest, local, root, host, opens);
        MovedAfterMoved(Stats(0, 0), Posts(ServerEnv(local, cwd), s', jobs[1..]).1);
      } else {
        var ps := Posts(ServerEnv(local, cwd), s, jobs).1;
        assert !ps[0].Moved?;
      }
    }
  }

  // ----------------------------------------------------------------- safe permission passes

  lemma DistinctSources(root: string, r: Path, q: Path)
    requires root != "" && AreNames(r) && AreNames(q) && SourceOf(root, r) == SourceOf(root, q)
    ensures r == q
  {
    hide Components, Join;
    if r != [] {
      ComponentsOfJoin(root, r);
    }
    if q != [] {
      ComponentsOfJoin(root, q);
    }
    assert Components(root) + r == Components(root) + q by {
      assert Components(root) + [] == Components(root);
    }
    SamePath(Components(root), r, q);
  }

  /** A local file system that has the directories of the list with given permissions. */
  lemma SomeGrants(root: string, src: Fs, visits: seq<Path>, opens: Path -> bool) returns (local: map<string, Node>)
    requires root != "" && Directories(src, visits)
    ensures Grants(local, root, visits, opens)
  {
    local := map[];
    for n := 0 to |visits|
      invariant forall i :: 0 <= i < n ==> Stores(local, SourceOf(root, visits[i]), Dir(opens(visits[i])))
    {
      forall i | 0 <= i < n && SourceOf(root, visits[i]) == SourceOf(root, visits[n]) ensures visits[i] == visits[n] {
        assert AreNames(visits[i]) && AreNames(visits[n]);
        DistinctSources(root, visits[i], visits[n]);
      }
      local := local[SourceOf(root, visits[n]) := Dir(opens(visits[n]))];
    }
  }

  /** Whatever permissions the source has, the requests of a pass over the list are all carried out. */
  ghost predicate Safe(s: Fs, cwd: Path, stem: string, src: Fs, visits: seq<Path>, root: string, host: string)
    requires Covers(visits, src)
  {
    forall local, opens :: Grants(local, root, visits, opens) ==>
      AllMoved(Posts(ServerEnv(local, cwd), s, JobsFor(root, host, stem, src, true, visits)).1)
  }

  /** The destination leads to `t`, where the directories of the list stand and those above them are open. */
  ghost predicate Prepared(s: Fs, cwd: Path, stem: string, t: Path, visits: seq<Path>) {
    Target(s, cwd, stem) == Some(t) && Standing(s, t, visits) && Describes({}, s, t, visits)
  }

  /**
   There a permission pass over the list is safe exactly when no directory comes
   before one below it, and the destination does not lead through any but the last.
   */
  lemma SafePasses(s: Fs, cwd: Path, stem: string, t: Path, src: Fs, visits: seq<Path>, root: string, host: string)
    requires Prepared(s, cwd, stem, t, visits)
    requires Directories(src, visits) && Covers(visits, src) && root != ""
    requires stem == "" ==> [] !in visits
    ensures Safe(s, cwd, stem, src, visits, root, host) <==>
            ChildrenFirst(visits) && OffTheWay(visits, WayOf(cwd, stem, t))
  {
    if visits == [] {
      NothingToVisit(s, cwd, stem, src, root, host);
    } else {
      StartOfPass(s, cwd, stem, t, visits);
      hide ServerEnv, Posts, JobsFor, AllReached, Grants, Standing, Describes, Led, Directories, Covers, ChildrenFirst,
           OffTheWay, WayOf, ComesFrom, Target;
      SafeOrders(WayOf(cwd, stem, t), visits);
      if ChildrenFirst(visits) && OffTheWay(visits, WayOf(cwd, stem, t)) {
        forall local, opens | Grants(local, root, visits, opens)
          ensures AllMoved(Posts(ServerEnv(local, cwd), s, JobsFor(root, host, stem, src, true, visits)).1)
        {
          PassReaches({}, s, s, cwd, stem, t, src, visits, local, root, host, opens);
        }
      } else {
        var opens: Path -> bool :| !AllReached({}, WayOf(cwd, stem, t), visits, opens);
        var local := SomeGrants(root, src, visits, opens);
        PassReaches({}, s, s, cwd, stem, t, src, visits, local, root, host, opens);
      }
    }
  }

  lemma NothingToVisit(s: Fs, cwd: Path, stem: string, src: Fs, root: string, host: string)
    ensures Safe(s, cwd, stem, src, [], root, host)
  {
  }

  lemma StartOfPass(s: Fs, cwd: Path, stem: string, t: Path, visits: seq<Path>)
    requires Prepared(s, cwd, stem, t, visits) && visits != []
    ensures ComesFrom(s, s, cwd, stem, t) && Led({}, s, cwd, stem, t)
  {
    hide Target, TargetRoute;
    TargetIsWalk(s, cwd, stem, t);
    assert visits[0][..0] == [] && t + [] == t && IsDirectory(s, t + visits[0][..0]);
  }

  // ----------------------------------------------------------------- the program's order

  /**
   Of two jobs that the pass visits, the later is never below the earlier: every
   directory is changed after all those below it.
   */
  lemma VisitsGoUp(c: Copy, host: string)
    requires c.Given()
    ensures
      var order := KeptIndices(Jobs(c, host, true));
      forall k, l :: 0 <= k < l < |order| ==>
        order[k] < |c.order| && order[l] < |c.order| && !(c.order[order[k]] < c.order[order[l]])
  {
    hide IsTree, IsFs, Target, ParentFirst, Distinct, KeptIndices, KeptReversed, Job.Kept;
    var jobs := Jobs(c, host, true);
    var order := KeptIndices(jobs);
    KeptReversedVisits(jobs);
    forall k, l | 0 <= k < l < |order|
      ensures order[k] < |c.order| && order[l] < |c.order| && !(c.order[order[k]] < c.order[order[l]])
    {
      assert order[k] > order[l];
      NotAboveEarlier(c.order, c.First(), order[k], order[l]);
    }
  }

  /** The directories among the entries, in their order. */
  ghost function DirectoriesOf(src: Fs, order: seq<Path>): seq<Path>
    requires Covers(order, src)
  {
    if order == [] then []
    else
      InitCovers(order, src);
      DirectoriesOf(src, Init(order)) + if src[Last(order)].Dir? then [Last(order)] else []
  }

  lemma InitCovers(order: seq<Path>, src: Fs)
    requires order != [] && Covers(order, src)
    ensures Covers(Init(order), src) && Last(order) in src
  {
    assert order[|order| - 1] in src;
  }

  function Reversed<T>(s: seq<T>): (r: seq<T>)
    ensures |r| == |s| && forall i :: 0 <= i < |s| ==> r[i] == s[|s| - 1 - i]
  {
    if s == [] then [] else [s[|s| - 1]] + Reversed(s[..|s| - 1])
  }

  lemma ReversedSnoc<T>(s: seq<T>, x: T)
    ensures Reversed(s + [x]) == [x] + Reversed(s)
  {
    assert (s + [x])[..|s|] == s;
  }

  lemma JobsForParts(root: string, host: string, stem: string, src: Fs, a: seq<Path>, b: seq<Path>)
    requires Covers(a, src) && Covers(b, src)
    ensures Covers(a + b, src)
    ensures JobsFor(root, host, stem, src, true, a + b) ==
            JobsFor(root, host, stem, src, true, a) + JobsFor(root, host, stem, src, true, b)
  {
    hide JobFor;
  }

  lemma KeptSnoc(jobs: seq<Job>, job: Job)
    ensures KeptReversed(jobs + [job]) == (if job.Kept() then [job] else []) + KeptReversed(jobs)
  {
    assert (jobs + [job])[..|jobs|] == jobs;
  }

  /** The jobs that the pass visits are those of the directories, backwards. */
  lemma {:induction false} PassOrder(root: string, host: string, stem: string, src: Fs, order: seq<Path>)
    requires Covers(order, src)
    ensures Covers(DirectoriesOf(src, order), src) && Covers(Reversed(DirectoriesOf(src, order)), src)
    ensures KeptReversed(JobsFor(root, host, stem, src, true, order)) ==
            JobsFor(root, host, stem, src, true, Reversed(DirectoriesOf(src, order)))
  {
    if order == [] {
    } else {
      var init, r := Init(order), Last(order);
      InitCovers(order, src);
      PassOrder(root, host, stem, src, init);
      var before := DirectoriesOf(src, init);
      assert order == init + [r];
      JobsForParts(root, host, stem, src, init, [r]);
      KeptSnoc(JobsFor(root, host, stem, src, true, init), JobFor(root, host, stem, src, true, r));
      assert JobsFor(root, host, stem, src, true, [r]) == [JobFor(root, host, stem, src, true, r)];
      if src[r].Dir? {
        ReversedSnoc(before, r);
        JobsForParts(root, host, stem, src, [r], Reversed(before));
      } else {
        assert before + [] == before;
      }
    }
  }

  /** Nothing comes before one of the directories above it. */
  ghost predicate Downward(order: seq<Path>) {
    forall i, j :: 0 <= i < j < |order| ==> !(order[j] < order[i])
  }

  lemma {:induction false} DirectoriesAre(src: Fs, order: seq<Path>)
    requires Covers(order, src)
    ensures forall r :: r in DirectoriesOf(src, order) <==> r in order && src[r].Dir?
  {
    if order == [] {
    } else {
      InitCovers(order, src);
      DirectoriesAre(src, Init(order));
      assert order == Init(order) + [Last(order)];
    }
  }

  lemma DownwardInit(order: seq<Path>, p: Path)
    requires order != [] && Downward(order)
    ensures Downward(Init(order)) && (p in Init(order) ==> !(Last(order) < p))
  {
    if p in Init(order) {
      var j :| 0 <= j < |order| - 1 && Init(order)[j] == p;
      assert !(order[|order| - 1] < order[j]);
    }
  }

  lemma {:induction false} DirectoriesGoDown(src: Fs, order: seq<Path>)
    requires Covers(order, src) && Downward(order)
    ensures Downward(DirectoriesOf(src, order))
  {
    if order == [] {
    } else {
      var init, r := Init(order), Last(order);
      InitCovers(order, src);
      DownwardInit(order, r);
      DirectoriesGoDown(src, init);
      DirectoriesAre(src, init);
      var before := DirectoriesOf(src, init);
      forall i | 0 <= i < |before| ensures !(r < before[i]) {
        assert before[i] in before;
        DownwardInit(order, before[i]);
      }
    }
  }

  lemma EntriesGoDown(c: Copy)
    requires c.Given()
    ensures Downward(c.order) && Downward(DirectoriesOf(c.src, c.order)) &&
            ChildrenFirst(Reversed(DirectoriesOf(c.src, c.order)))
  {
    hide IsTree, IsFs, Target, ParentFirst, Distinct;
    forall i, j | 0 <= i < j < |c.order| ensures !(c.order[j] < c.order[i]) {
      NotAboveEarlier(c.order, c.First(), j, i);
    }
    DirectoriesGoDown(c.src, c.order);
  }

  /** The directories of the copy stand at the target, where the destination leads, and those above them are open. */
  ghost predicate Transferred(c: Copy, s: Fs)
    requires Covers(c.order, c.src)
  {
    Prepared(s, c.cwd, c.stem, c.t, DirectoriesOf(c.src, c.order))
  }

  lemma VisitsAreDirectories(c: Copy)
    requires c.Given()
    ensures
      var visits := DirectoriesOf(c.src, c.order);
      Directories(c.src, visits) && Covers(visits, c.src) && (c.stem == "" ==> [] !in visits)
  {
    hide IsFs, Target, Distinct, IsTree, ParentFirst;
    var visits := DirectoriesOf(c.src, c.order);
    DirectoriesAre(c.src, c.order);
    forall i | 0 <= i < |visits| ensures visits[i] in c.src && c.src[visits[i]].Dir? && AreNames(visits[i]) {
      assert visits[i] in visits;
      EntryIsNamed(c.src, visits[i]);
    }
    if [] in visits {
      var i :| 0 <= i < |c.order| && c.order[i] == [];
      RootComesFirst(c, i);
    }
  }

  lemma BackwardsToo(s: Fs, cwd: Path, stem: string, t: Path, src: Fs, visits: seq<Path>)
    requires Prepared(s, cwd, stem, t, visits) && Directories(src, visits) && Covers(visits, src)
    ensures
      var back := Reversed(visits);
      && Prepared(s, cwd, stem, t, back) && Directories(src, back) && Covers(back, src)
      && forall r :: r in back ==> r in visits
  {
    hide Target;
  }

  /**
   The pass of the program, which visits the directories backwards, succeeds
   whatever permissions the source has, exactly when the destination does not
   lead through a directory of the copy other than the first.
   */
  lemma ReversedPassIsSafe(c: Copy, s: Fs, host: string)
    requires c.Given() && Transferred(c, s)
    ensures
      var visits := Reversed(DirectoriesOf(c.src, c.order));
      && Covers(visits, c.src)
      && KeptReversed(Jobs(c, host, true)) == JobsFor(c.root, host, c.stem, c.src, true, visits)
      && (Safe(s, c.cwd, c.stem, c.src, visits, c.root, host) <==> OffTheWay(visits, WayOf(c.cwd, c.stem, c.t)))
  {
    var visits := DirectoriesOf(c.src, c.order);
    PassOrder(c.root, host, c.stem, c.src, c.order);
    VisitsAreDirectories(c);
    BackwardsToo(s, c.cwd, c.stem, c.t, c.src, visits);
    EntriesGoDown(c);
    hide IsTree, IsFs, Target, ParentFirst, Distinct, Prepared, Directories, Safe, ChildrenFirst, Downward,
         DirectoriesOf, OffTheWay, WayOf;
    SafePasses(s, c.cwd, c.stem, c.t, c.src, Reversed(visits), c.root, host);
  }

  /** A pass in the order of the jobs would not, as soon as one directory of the copy is below another. */
  lemma ForwardPassIsUnsafe(c: Copy, s: Fs, host: string, i: nat)
    requires c.Given() && Transferred(c, s)
    requires i < |c.order| && c.src[c.order[i]].Dir? && |c.order[i]| > c.First()
    ensures
      var visits := DirectoriesOf(c.src, c.order);
      Covers(visits, c.src) && !Safe(s, c.cwd, c.stem, c.src, visits, c.root, host)
  {
    hide IsTree, IsFs, Target, ParentFirst, Distinct, Prepared, Directories, Safe, DirectoriesOf, Downward,
         ChildrenFirst, Reversed, OffTheWay, WayOf;
    var visits, r := DirectoriesOf(c.src, c.order), c.order[i];
    VisitsAreDirectories(c);
    EntriesGoDown(c);
    assert r in c.src;
    EntryIsNamed(c.src, r);
    EveryFollows(c.order, c.First(), i);
    DirectoriesAre(c.src, c.order);
    var k :| 0 <= k < i && c.order[k] == Init(r);
    NotChildrenFirst(visits, Init(r), r);
    SafePasses(s, c.cwd, c.stem, c.t, c.src, visits, c.root, host);
  }

  lemma NotChildrenFirst(visits: seq<Path>, up: Path, r: Path)
    requires Downward(visits) && up in visits && r in visits && up < r
    ensures !ChildrenFirst(visits)
  {
    var a :| 0 <= a < |visits| && visits[a] == up;
    var b :| 0 <= b < |visits| && visits[b] == r;
    assert a < b;
  }

  lemma EveryFollows(order: seq<Path>, first: nat, i: nat)
    requires ParentFirst(order, first) && i < |order|
    ensures Follows(order, first, i)
  {
  }

  /** Such is the state after transfers that did what they should. */
  lemma TransfersMakeReady(c: Copy)
    requires c.Valid() && c.LandsFrom(0)
    ensures Transferred(c, c.Progress(|c.order|))
  {
    hide IsTree, IsFs, Target, ParentFirst, Distinct, Copy.Progress, Copy.Lands, TargetRoute;
    var n, s := |c.order|, c.Progress(|c.order|);
    var visits := DirectoriesOf(c.src, c.order);
    TargetStays(c, n);
    DirectoriesAre(c.src, c.order);
    forall i, k | 0 <= i < |visits| && 0 <= k <= |visits[i]|
      ensures IsDirectory(s, c.t + visits[i][..k]) && (k < |visits[i]| ==> Has(s, c.t + visits[i][..k], Dir(true)))
    {
      assert visits[i] in visits;
      var j :| 0 <= j < n && c.order[j] == visits[i];
      if k < |visits[i]| {
        WayIsOpen(c, j, k);
      } else {
        assert visits[i][..k] == visits[i];
        DirectoryArrives(c, j);
      }
    }
  }
}
