/** What a recursive put leaves behind, from the command line on. */
module CopiedTree {
  import opened Wrappers
  import opened Numbers
  import opened Paths
  import opened RemoteFs
  import opened RemotePaths
  import opened MainLoop
  import opened DirWalk
  import opened CommandLine
  import opened Copies
  import opened RecursivePut
  import opened Routes
  import opened PermissionPass
  import opened PreservingPut
  import opened TreeWalk

  // -------------------------------------------------------- without the permission pass

  lemma NoPostJobs(c: Copy, host: string, preserve: bool)
    requires c.Given() && (!preserve || |c.order| <= 1)
    ensures PostJobs(Jobs(c, host, preserve)) == []
  {
    hide IsTree, IsFs, Target, ParentFirst, Distinct, KeptReversed;
    if |c.order| > 1 {
      NoneKept(Jobs(c, host, preserve));
    }
  }

  /**
   A run that does not preserve permissions, or has a single job, for which the
   permission pass is left out, succeeds exactly when the destination leads
   somewhere and every entry can land there. Directories that were there stay as
   they are, and new ones can be traversed.
   */
  lemma PlainCopy(c: Copy, local: map<string, Node>, host: string, preserve: bool)
    requires c.Given() && Holds(local, c.root, c.src) && c.order != [] && (!preserve || |c.order| == 1) && c.pushes == 2
    ensures
      var (fs', r) := Run(ServerEnv(local, c.cwd), c.fs, Jobs(c, host, preserve));
      && r.Some?
      && (r.value.0 <==> c.Valid() && c.LandsFrom(0))
      && (r.value.0 ==> c.Landed(fs', false))
      && (r.value.0 && c.Rebuilt(fs', false) <==> c.Valid() && c.FitsFrom(0))
  {
    hide ServerEnv, IsTree, IsFs, Target, ParentFirst, Distinct, Holds, JobsFor, Transfers, Posts, PostJobs, Total,
         Copy.Progress, Copy.Lands, Copy.Fits, Copy.Landed, Copy.Rebuilt, ByteSum, IsPeak;
    var jobs, n := Jobs(c, host, preserve), |c.order|;
    var env := ServerEnv(local, c.cwd);
    if c.Valid() {
      JobsAreRemote(c, host, preserve);
      NothingYet(c);
      assert jobs[0..] == jobs;
      RebuildFrom(c, local, host, preserve, 0);
      NoPostJobs(c, host, preserve);
      PostsOfNone(env, Transfers(env, c.fs, jobs, true).0);
      NothingIsLost(local, c.cwd, c.fs, jobs);
      SuccessMeansAllDone(env, c.fs, jobs);
      if c.LandsFrom(0) {
        ProgressLanded(c);
        LandedIsRebuilt(c, c.Progress(n), false);
      } else if c.FitsFrom(0) {
        FitsAreLands(c);
      }
    } else {
      NowhereToGo(c, local, host, preserve);
    }
  }

  // ------------------------------------------------------------------------ statistics

  ghost function TotalSize(c: Copy, i: nat): nat
    requires Covers(c.order, c.src) && i <= |c.order|
    decreases |c.order| - i
  {
    if i == |c.order| then 0 else Size(c.src[c.order[i]]) + TotalSize(c, i + 1)
  }

  lemma {:induction false} SentBytes(c: Copy, i: nat)
    requires Covers(c.order, c.src) && i <= |c.order|
    ensures ByteSum(AllSent(c, i)) == TotalSize(c, i)
    decreases |c.order| - i
  {
    if i == |c.order| {
    } else {
      SentBytes(c, i + 1);
      assert AllSent(c, i)[1..] == AllSent(c, i + 1);
    }
  }

  /** When every entry lands, the bytes reported are those of all the files, with or without the permission pass. */
  lemma ReportsAllBytes(c: Copy, local: map<string, Node>, host: string, preserve: bool)
    requires c.Valid() && Holds(local, c.root, c.src) && c.order != [] && c.LandsFrom(0) && c.pushes == 2
    ensures
      var r := Run(ServerEnv(local, c.cwd), c.fs, Jobs(c, host, preserve)).1;
      r.Some? && r.value.1.bytes == TotalSize(c, 0)
  {
    hide ServerEnv, IsTree, IsFs, Target, ParentFirst, Distinct, Holds, JobsFor, Transfers, Posts, Total,
         Copy.Lands, ByteSum, IsPeak, PostJobs, Copy.Progress, AllSent;
    var jobs := Jobs(c, host, preserve);
    JobsAreRemote(c, host, preserve);
    NothingYet(c);
    assert jobs[0..] == jobs;
    RebuildFrom(c, local, host, preserve, 0);
    NothingIsLost(local, c.cwd, c.fs, jobs);
    SuccessMeansAllDone(ServerEnv(local, c.cwd), c.fs, jobs);
    SentBytes(c, 0);
  }

  // ------------------------------------------------------------------ empty destinations

  /** The whole source, without its root when there is no destination. */
  ghost predicate Everything(c: Copy) {
    forall r :: r in c.src && |r| >= c.First() ==> r in c.order
  }

  /** What then is below the target is the source: the same names, kinds, contents and permissions, and nothing else. */
  lemma SubtreeIsSource(c: Copy, fs': Fs, r: Path)
    requires c.Valid() && Empty(c) && Everything(c) && |r| >= c.First() && c.Rebuilt(fs', true)
    ensures c.t + r in fs' <==> r in c.src
    ensures r in c.src ==> fs'[c.t + r] == c.src[r]
  {
    hide IsFs, Target, ParentFirst, Distinct, Copy.Rebuilt;
    RootIsDir(c.src);
    if r in c.src {
      var i :| 0 <= i < |c.order| && c.order[i] == r;
      RebuiltAt(c, fs', i);
    } else {
      forall i | 0 <= i < |c.order| ensures c.t + c.order[i] != c.t + r {
        if c.t + c.order[i] == c.t + r {
          SamePath(c.t, c.order[i], r);
        }
      }
      assert r == [] || c.t < c.t + r;
      NotRebuilt(c, fs', c.t + r);
    }
  }

  lemma RebuiltAt(c: Copy, fs': Fs, i: nat)
    requires Covers(c.order, c.src) && c.Rebuilt(fs', true) && i < |c.order|
    ensures Has(fs', c.t + c.order[i], c.src[c.order[i]])
  {
  }

  lemma NotRebuilt(c: Copy, fs': Fs, p: Path)
    requires Covers(c.order, c.src) && c.Rebuilt(fs', true)
    requires forall i :: 0 <= i < |c.order| ==> c.t + c.order[i] != p
    ensures Same(c.fs, fs', p)
  {
  }

  /** Whatever is not below the target is not touched, wherever files land. */
  lemma RestIsUntouched(c: Copy, fs': Fs, preserved: bool, p: Path)
    requires Covers(c.order, c.src) && c.Landed(fs', preserved) && !(c.t <= p)
    ensures Same(c.fs, fs', p)
  {
    hide Copy.Place;
    forall i | 0 <= i < |c.order| ensures c.Place(c.order[i]) != p {
      PlaceIsBelow(c, c.order[i]);
    }
  }

  // --------------------------------------------------------------------- a single file

  lemma AppendsToRoot(fs: Fs, cwd: Path, stem: string, t: Path)
    requires IsFs(fs) && [] in fs && cwd in fs && stem != "" && Target(fs, cwd, stem) == Some(t)
    ensures
      AppendsName(fs, cwd, DestinationOf(stem, [])) ==
        if t in fs && fs[t].Dir? then Ok(true) else Err(DirectoryDoesNotExist)
  {
    var dest := DestinationOf(stem, []);
    assert EndsWithSeparator(dest) && dest != ".";
    DestinationParts(cwd, stem, []);
    RootLook(fs, cwd, stem, t);
    hide Look, Split, DestinationOf, ParentIsDir, Target, EndsWithSeparator, IsAbsolute;
  }

  lemma LeadsToName(fs: Fs, cwd: Path, stem: string, t: Path, name: string)
    requires Target(fs, cwd, stem) == Some(t) && t in fs && fs[t].Dir? && IsName(name)
    ensures Leads(fs, cwd, stem, t, [name]) && t + Init([name]) == t
  {
    hide Target;
    var r := [name];
    assert Init(r) == [] && t + Init(r) == t;
    assert AreNames(r);
  }

  /**
   A source that is a single file gets a destination that ends in a separator:
   it goes by its name into a directory that is there, and nowhere else; if that
   has a directory of the name, into it.
   */
  lemma SingleFile(fs: Fs, cwd: Path, stem: string, t: Path, name: string, content: Bytes)
    requires IsFs(fs) && [] in fs && cwd in fs && stem != "" && Target(fs, cwd, stem) == Some(t) && IsName(name)
    ensures
      var put := PutFile(fs, cwd, DestinationOf(stem, []), name, content);
      if t in fs && fs[t] == Dir(true) && Settles(fs, t + [name], name, 1)
      then put == Ok(fs[Settle(fs, t + [name], name, 1) := File(content)])
      else put.Err?
  {
    hide AppendsName, CreateOrTruncate, DestinationOf, Target, Push, IsFs, IsName, Leads, Settle, Settles;
    assert AreNames([]) by {
      NoNames();
    }
    PushToDestination(stem, [], name);
    AppendsToRoot(fs, cwd, stem, t);
    if t in fs && fs[t].Dir? {
      LeadsToName(fs, cwd, stem, t, name);
      CreateAt(fs, cwd, stem, t, [name], name, content);
      assert [] + [name] == [name];
    }
  }

  // --------------------------------------------------------------- from the command line

  lemma PutCopies(c: Copy, local: map<string, Node>, host: string, preserve: bool)
    requires c.Given() && Holds(local, c.root, c.src) && c.order != [] && c.pushes == 2
    ensures
      var (fs', r) := Run(ServerEnv(local, c.cwd), c.fs, Jobs(c, host, preserve));
      && r.Some?
      && (r.value.0 <==> c.Valid() && c.LandsFrom(0) && (c.Sets(preserve) ==> Passable(c)))
      && (r.value.0 ==> c.Landed(fs', c.Sets(preserve)))
  {
    hide Copy.Given, Copy.Valid, Holds, Run, ServerEnv, Jobs, Copy.LandsFrom, Passable, Copy.Landed;
    if c.Sets(preserve) {
      PreservingCopy(c, local, host);
    } else {
      PlainCopy(c, local, host, preserve);
    }
  }

  lemma OneSourceJobs(source: FileSpec, destination: FileSpec, options: Options, walk: string -> seq<WalkItem>)
    requires forall name :: Sound(walk(name))
    requires source.host.None? && destination.host.Some? && options.recurse
    ensures JobSpecs([source, destination], options, walk) ==
            SourceJobs(source, destination, options.preserve, walk(source.filename))
  {
    var paths := [source, destination];
    hide SourceJobs, Sound;
    assert Init(paths) == [source] && Last(paths) == destination;
    assert OneUser(paths) && OneHost(paths) && OneSide([source], destination);
    assert [source][..0] == [];
    var none: seq<Job> := [];
    assert AllJobs([], destination, options, walk, false) == Ok((true, none));
    var jobs := SourceJobs(source, destination, options.preserve, walk(source.filename));
    if jobs.Ok? {
      assert none + jobs.value.1 == jobs.value.1;
    }
  }

  /** The copy that a command line comes to, given where its destination leads. */
  lemma PutByStem(c: Copy, whole: Fs, privileged: bool, full: seq<Path>, local: map<string, Node>, host: string,
                   destination: string, preserve: bool, walk: string -> seq<WalkItem>)
    requires c.Given() && CopiesWalk(c, whole, privileged, full) && Holds(local, c.root, c.src) && c.order != [] &&
             c.pushes == 2
    requires c.stem == DestinationStem(c.root, destination)
    requires (forall name :: Sound(walk(name))) && walk(c.root) == Items(c.root, whole, privileged, full)
    ensures
      var paths := [FileSpec(None, c.root), FileSpec(Some(host), destination)];
      var (fs', exit) := Client(ServerEnv(local, c.cwd), c.fs, paths, Options(true, preserve), walk);
      var landing := c.Valid() && c.LandsFrom(0) && (c.Sets(preserve) ==> Passable(c));
      && exit.Finished?
      && (exit.success <==> c.src == whole && landing)
      && (landing ==> c.Landed(fs', c.Sets(preserve)) && exit.stats.bytes == TotalSize(c, 0))
  {
    hide Copy.Given, Copy.Valid, Holds, Run, ServerEnv, Copy.LandsFrom, Passable, Copy.Landed, JobSpecs, SourceJobs,
         Items, Sound, DestinationStem, CopiesWalk, Copy.Sets;
    CopiesEverything(c, whole, privileged, full);
    JobsOfWalk(c, whole, privileged, full, host, destination, preserve);
    OneSourceJobs(FileSpec(None, c.root), FileSpec(Some(host), destination), Options(true, preserve), walk);
    PutCopies(c, local, host, preserve);
    if c.Valid() && c.LandsFrom(0) {
      ReportsAllBytes(c, local, host, preserve);
    }
    SomeJobs(c, host, preserve);
  }

  lemma SomeJobs(c: Copy, host: string, preserve: bool)
    requires Covers(c.order, c.src) && c.order != []
    ensures Jobs(c, host, preserve) != []
  {
  }

  lemma PutRebuilds(c: Copy, whole: Fs, privileged: bool, full: seq<Path>,
                                 local: map<string, Node>, host: string, destination: string,
                                 walk: string -> seq<WalkItem>)
    requires c.Valid() && CopiesWalk(c, whole, privileged, full) && Holds(local, c.root, c.src) && Empty(c)
    requires |c.order| > 1 && c.pushes == 2
    requires c.stem == DestinationStem(c.root, destination)
    requires (forall name :: Sound(walk(name))) && walk(c.root) == Items(c.root, whole, privileged, full)
    ensures
      var paths := [FileSpec(None, c.root), FileSpec(Some(host), destination)];
      var (fs', exit) := Client(ServerEnv(local, c.cwd), c.fs, paths, Options(true, true), walk);
      && exit.Finished? && (exit.success <==> c.src == whole) && exit.stats.bytes == TotalSize(c, 0)
      && (forall r :: |r| >= c.First() ==> (c.t + r in fs' <==> r in c.src))
      && (forall r :: |r| >= c.First() && r in c.src ==> fs'[c.t + r] == c.src[r])
      && (forall p {:trigger Same(c.fs, fs', p)} :: !(c.t <= p) ==> Same(c.fs, fs', p))
  {
    hide IsFs, Target, ParentFirst, Distinct, Items, DestinationStem, Client, ServerEnv, Empty, Holds,
         Copy.LandsFrom, Copy.FitsFrom, Passable, Copy.Landed, Copy.Rebuilt, Sound, CopiesWalk, IsTree, Same;
    CopiesEverything(c, whole, privileged, full);
    EmptyDestinationFits(c);
    PutByStem(c, whole, privileged, full, local, host, destination, true, walk);
    var paths := [FileSpec(None, c.root), FileSpec(Some(host), destination)];
    var fs' := Client(ServerEnv(local, c.cwd), c.fs, paths, Options(true, true), walk).0;
    LandedIsRebuilt(c, fs', true);
    forall r: Path | |r| >= c.First()
      ensures (c.t + r in fs' <==> r in c.src) && (r in c.src ==> fs'[c.t + r] == c.src[r])
    {
      SubtreeIsSource(c, fs', r);
    }
    forall p: Path | !(c.t <= p) ensures Same(c.fs, fs', p) {
      RestIsUntouched(c, fs', true, p);
    }
  }

  // ------------------------------------------------------------------- where a put goes

  /**
   A destination that ends in a separator takes the source in by its last part,
   and has to be a directory that lets it in. Any other is where its own text
   leads.
   */
  function WhereTo(fs: Fs, cwd: Path, source: string, destination: string): Option<Path> {
    var name := LastPart(Split(source));
    if EndsWithSeparator(destination) && name.Some? then
      match Find(fs, cwd, destination)
      case Ok(d) => if fs[d] == Dir(true) then Some(Follow(d, name.value)) else None
      case Err(_) => None
    else Target(fs, cwd, destination)
  }

  /** The directories that the text of such a destination leads through. */
  function WayTo(cwd: Path, source: string, destination: string): set<Path> {
    if EndsWithSeparator(destination) && LastPart(Split(source)).Some? then
      Route(Start(cwd, destination), BaseParts(destination)) + {Walk(Start(cwd, destination), BaseParts(destination))}
    else TargetRoute(cwd, destination)
  }

  /**
   A name appended to a text leads below the directory that the text leads to,
   if it lets it through, and else nowhere.
   */
  lemma TargetOfAppended(fs: Fs, cwd: Path, destination: string, name: string)
    requires EndsWithSeparator(destination) && name != "" && '/' !in name
    ensures
      Target(fs, cwd, JoinRemote(destination, name)) ==
        match Find(fs, cwd, destination)
        case Ok(d) => if fs[d] == Dir(true) then Some(Follow(d, name)) else None
        case Err(_) => None
    ensures TargetRoute(cwd, JoinRemote(destination, name)) ==
            Route(Start(cwd, destination), BaseParts(destination)) +
              {Walk(Start(cwd, destination), BaseParts(destination))}
  {
    var at, parts, text := Start(cwd, destination), BaseParts(destination), JoinRemote(destination, name);
    AppendedText(cwd, destination, name);
    SplitAtSeparator(destination[..|destination| - 1], "");
    assert destination == destination[..|destination| - 1] + "/" + "" && Split("") == [""];
    assert Split(destination) == parts + [""];
    hide Look, Split, BaseParts, JoinRemote, IsAbsolute, EndsWithSeparator;
    assert Init(parts + [name]) == parts && Last(parts + [name]) == name;
    RouteSnoc(at, parts + [name]);
    LookAppend(fs, at, parts, [""]);
    if Look(fs, at, parts).Ok? {
      LookOne(fs, Look(fs, at, parts).value, "");
    }
  }

  /** That is where the text that the jobs hang off leads. */
  lemma StemLeads(fs: Fs, cwd: Path, source: string, destination: string)
    ensures Target(fs, cwd, DestinationStem(source, destination)) == WhereTo(fs, cwd, source, destination)
    ensures TargetRoute(cwd, DestinationStem(source, destination)) == WayTo(cwd, source, destination)
    ensures DestinationStem(source, destination) == "" <==> destination == ""
  {
    hide Target, Find, Split, TargetRoute, Walk, Route;
    var parts := Split(source);
    PartsHaveNoSeparator(source);
    if EndsWithSeparator(destination) {
      match LastPart(parts)
      case None =>
        assert destination + "" == destination;
      case Some(name) =>
        LastPartIsPart(parts);
        TargetOfAppended(fs, cwd, destination, name);
    }
  }

  /** The last part of a path is its last name, whatever separators come after it. */
  lemma {:induction false} LastPartOf(base: string, name: string, separators: string)
    requires name != "" && '/' !in name && forall i :: 0 <= i < |separators| ==> separators[i] == '/'
    ensures LastPart(Split(name + separators)) == Some(name)
    ensures LastPart(Split(base + "/" + name + separators)) == Some(name)
    decreases |separators|
  {
    if separators == "" {
      assert name + "" == name && base + "/" + name + "" == base + "/" + name;
      SplitName(name);
      SplitAtSeparator(base, name);
      hide Split;
      LastPartSnoc(Split(base), name);
    } else {
      var fewer := separators[..|separators| - 1];
      assert separators == fewer + "/";
      LastPartOf(base, name, fewer);
      LastPartOfSeparator(name + fewer);
      LastPartOfSeparator(base + "/" + name + fewer);
      assert name + separators == name + fewer + "/";
      assert base + "/" + name + separators == base + "/" + name + fewer + "/";
    }
  }

  lemma LastPartSnoc(parts: seq<string>, name: string)
    ensures LastPart(parts + [name]) == if name != "" then Some(name) else LastPart(parts)
  {
    assert Init(parts + [name]) == parts;
  }

  lemma LastPartOfSeparator(s: string)
    ensures LastPart(Split(s + "/")) == LastPart(Split(s))
  {
    SplitAtSeparator(s, "");
    assert s + "/" + "" == s + "/" && Split("") == [""];
    hide Split;
    LastPartSnoc(Split(s), "");
  }

  // --------------------------------------------------------------- from the command line

  /**
   The copy that a put of `root` to `destination` comes to: of what can be seen
   of the tree, to where the destination leads.
   */
  ghost function PutOf(fs: Fs, cwd: Path, root: string, destination: string, whole: Fs, privileged: bool,
                       full: seq<Path>): Copy {
    Copy(fs, Seen(whole, privileged), WhereTo(fs, cwd, root, destination).GetOr([]), cwd, root,
         DestinationStem(root, destination),
         AtLeast(SeenOf(whole, privileged, full), if destination == "" then 1 else 0), 2)
  }

  /** The circumstances of a put: a remote file system, and a local tree with some order of the walk through it. */
  ghost predicate PutIsGiven(fs: Fs, cwd: Path, root: string, whole: Fs, full: seq<Path>) {
    && IsFs(fs) && [] in fs && cwd in fs && fs[cwd].Dir?
    && IsTree(whole) && WalkOrder(full, whole) && root != ""
  }

  lemma PutOfIs(fs: Fs, cwd: Path, root: string, destination: string, whole: Fs, privileged: bool, full: seq<Path>)
    requires PutIsGiven(fs, cwd, root, whole, full)
    ensures
      var c := PutOf(fs, cwd, root, destination, whole, privileged, full);
      && c.Given() && CopiesWalk(c, whole, privileged, full)
      && (c.Valid() <==> WhereTo(fs, cwd, root, destination).Some?)
      && TargetRoute(c.cwd, c.stem) == WayTo(cwd, root, destination)
      && (destination == "" || c.order != [])
  {
    hide IsFs, WhereTo, WayTo, DestinationStem, Target, TargetRoute, ParentFirst, Distinct, IsTree, WalkOrder,
         AtLeast, SeenOf, Seen, Covers;
    var c := PutOf(fs, cwd, root, destination, whole, privileged, full);
    StemLeads(fs, cwd, root, destination);
    CopiesEverything(c, whole, privileged, full);
    RootIsDir(c.src);
    var top: Path := [];
    assert top in c.src && |top| >= 0;
  }

  /** The destination leads through no closed directory of the copy below its root. */
  ghost predicate PassableWay(c: Copy, way: set<Path>) {
    forall d :: d in way ==> !ClosedBelow(c, d)
  }

  /**
   A recursive put as a whole, from the command line to the exit: it reports
   success exactly when the walker could look at everything, the destination
   leads somewhere, every entry can land there, and, if permissions are set, the
   destination does not lead through a closed directory of the copy. What the
   walker could not look at does not keep the rest from landing.
   */
  lemma ClientPuts(fs: Fs, cwd: Path, root: string, host: string, destination: string, preserve: bool, whole: Fs,
                   privileged: bool, full: seq<Path>, local: map<string, Node>, walk: string -> seq<WalkItem>)
    requires PutIsGiven(fs, cwd, root, whole, full) && Holds(local, root, Seen(whole, privileged))
    requires (forall name :: Sound(walk(name))) && walk(root) == Items(root, whole, privileged, full)
    requires destination == "" ==> PutOf(fs, cwd, root, destination, whole, privileged, full).order != []
    ensures
      var c := PutOf(fs, cwd, root, destination, whole, privileged, full);
      Covers(c.order, c.src)
    ensures
      var c := PutOf(fs, cwd, root, destination, whole, privileged, full);
      var paths := [FileSpec(None, root), FileSpec(Some(host), destination)];
      var (fs', exit) := Client(ServerEnv(local, cwd), fs, paths, Options(true, preserve), walk);
      var landing := && WhereTo(fs, cwd, root, destination) == Some(c.t) && c.LandsFrom(0)
                     && (c.Sets(preserve) ==> PassableWay(c, WayTo(cwd, root, destination)));
      && exit.Finished?
      && (exit.success <==> c.src == whole && landing)
      && (landing ==> c.Landed(fs', c.Sets(preserve)) && exit.stats.bytes == TotalSize(c, 0))
  {
    hide PutIsGiven, WhereTo, WayTo, DestinationStem, TargetRoute, Items, Sound, CopiesWalk, Client, ServerEnv,
         Holds, Copy.Given, Copy.Valid, Copy.LandsFrom, Copy.Landed, Seen, SeenOf, AtLeast, PutOf, Covers, Passable,
         PassableWay, TotalSize;
    var c := PutOf(fs, cwd, root, destination, whole, privileged, full);
    PutOfIs(fs, cwd, root, destination, whole, privileged, full);
    GivenCovers(c);
    PutOfFields(fs, cwd, root, destination, whole, privileged, full);
    assert [FileSpec(None, c.root), FileSpec(Some(host), destination)] ==
           [FileSpec(None, root), FileSpec(Some(host), destination)];
    PutByStem(c, whole, privileged, full, local, host, destination, preserve, walk);
  }

  lemma PutOfFields(fs: Fs, cwd: Path, root: string, destination: string, whole: Fs, privileged: bool, full: seq<Path>)
    requires PutIsGiven(fs, cwd, root, whole, full)
    ensures
      var c := PutOf(fs, cwd, root, destination, whole, privileged, full);
      && c.fs == fs && c.cwd == cwd && c.root == root && c.stem == DestinationStem(root, destination) && c.pushes == 2
      && c.src == Seen(whole, privileged)
      && (c.Valid() <==> WhereTo(fs, cwd, root, destination) == Some(c.t))
      && (Passable(c) <==> PassableWay(c, WayTo(cwd, root, destination)))
  {
    PutOfIs(fs, cwd, root, destination, whole, privileged, full);
    hide PutIsGiven, WhereTo, WayTo, DestinationStem, TargetRoute, CopiesWalk, Copy.Given, Copy.Valid, Seen, SeenOf,
         AtLeast, ClosedBelow;
  }

  lemma GivenCovers(c: Copy)
    requires c.Given()
    ensures Covers(c.order, c.src)
  {
    hide IsTree, IsFs, Target, ParentFirst, Distinct;
  }

  /**
   A preserving put into an empty place: whatever order the walker takes, below
   where the destination leads there is then what the walker could look at of the
   source, permissions included, and the client reports success exactly when that
   is all of it.
   */
  lemma RecursivePutRebuildsTree(fs: Fs, cwd: Path, root: string, host: string, destination: string, t: Path, whole: Fs,
                                 privileged: bool, full: seq<Path>, local: map<string, Node>,
                                 walk: string -> seq<WalkItem>)
    requires PutIsGiven(fs, cwd, root, whole, full) && Holds(local, root, Seen(whole, privileged))
    requires (forall name :: Sound(walk(name))) && walk(root) == Items(root, whole, privileged, full)
    requires WhereTo(fs, cwd, root, destination) == Some(t)
    requires (forall p :: p in fs ==> !(t < p)) && (t in fs ==> fs[t] == Dir(true))
    requires |PutOf(fs, cwd, root, destination, whole, privileged, full).order| > 1
    ensures
      var paths := [FileSpec(None, root), FileSpec(Some(host), destination)];
      var (fs', exit) := Client(ServerEnv(local, cwd), fs, paths, Options(true, true), walk);
      var src, first := Seen(whole, privileged), if destination == "" then 1 else 0;
      && exit.Finished? && (exit.success <==> src == whole)
      && (forall r :: |r| >= first ==> (t + r in fs' <==> r in src))
      && (forall r :: |r| >= first && r in src ==> fs'[t + r] == src[r])
      && (forall p {:trigger Same(fs, fs', p)} :: !(t <= p) ==> Same(fs, fs', p))
  {
    var c := PutOf(fs, cwd, root, destination, whole, privileged, full);
    PutOfIs(fs, cwd, root, destination, whole, privileged, full);
    StemLeads(fs, cwd, root, destination);
    assert c.t == t && Empty(c) && c.First() == if destination == "" then 1 else 0;
    hide PutIsGiven, WhereTo, WayTo, DestinationStem, TargetRoute, Items, Sound, CopiesWalk, Client, ServerEnv, Holds,
         Copy.Given, Copy.Valid, Seen, SeenOf, AtLeast, Empty, Same, Target;
    PutRebuilds(c, whole, privileged, full, local, host, destination, walk);
  }

  /** Where such a put goes: into an open directory whose text ends in a separator, by the last part of the source. */
  lemma TargetOfPut(fs: Fs, cwd: Path, source: string, destination: string, d: Path)
    requires EndsWithSeparator(destination) && Find(fs, cwd, destination) == Ok(d) && fs[d] == Dir(true)
    ensures
      var target := Target(fs, cwd, DestinationStem(source, destination));
      match LastPart(Split(source))
      case None => target == Some(d)
      case Some(name) =>
        && (IsName(name) ==> target == Some(d + [name]))
        && (name == "." ==> target == Some(d))
        && (name == ".." && d != [] ==> target == Some(Init(d)))
  {
    hide Target, Find, Split;
    var parts := Split(source);
    PartsHaveNoSeparator(source);
    match LastPart(parts)
    case None =>
      assert destination + "" == destination;
      TargetIsDirectory(fs, cwd, destination, d);
    case Some(name) =>
      LastPartIsPart(parts);
      TargetInDirectory(fs, cwd, destination, d, name);
  }

  lemma {:induction false} LastPartIsPart(parts: seq<string>)
    requires LastPart(parts).Some?
    ensures LastPart(parts).value in parts && LastPart(parts).value != ""
  {
    if Last(parts) == "" {
      LastPartIsPart(Init(parts));
    }
  }

  // ------------------------------------------------------------ a way through the copy

  /** An existing `a/b`, a source with a closed `b`, and the destination "a/b/..". */
  ghost function ThroughTheCopy(): Copy {
    var fs: Fs := map[[] := Dir(true), ["a"] := Dir(true), ["a", "b"] := Dir(true)];
    var src: Fs := map[[] := Dir(true), ["b"] := Dir(false)];
    Copy(fs, src, ["a"], [], "src", "a/b/..", [[], ["b"]], 2)
  }

  lemma SplitThrough()
    ensures BaseParts("a/b/..") == ["a", "b", ".."] && DropTrailing(BaseParts("a/b/..")) == ["a", "b", ".."]
  {
    assert "a/b/.." == "a" + "/" + "b/.." && "b/.." == "b" + "/" + "..";
    SplitAtSeparator("a", "b/..");
    SplitAtSeparator("b", "..");
    SplitName("a");
    SplitName("b");
    SplitName("..");
  }

  lemma TargetThrough(c: Copy)
    requires c == ThroughTheCopy()
    ensures Target(c.fs, c.cwd, c.stem) == Some(c.t) && ["a", "b"] in TargetRoute(c.cwd, c.stem)
  {
    SplitThrough();
    hide BaseParts, DropTrailing;
    var parts := ["a", "b", ".."];
    assert Init(parts) == ["a", "b"] && Init(["a", "b"]) == ["a"];
    LookOne(c.fs, [], "a");
    assert [] + ["a"] == ["a"] && ["a"] + ["b"] == ["a", "b"];
    LookSnoc(c.fs, [], ["a", "b"]);
    LookOne(c.fs, ["a"], "b");
    assert Follow(["a", "b"], "..") == ["a"];
    assert parts[1..] == ["b", ".."] && parts[1..][1..] == [".."];
    assert Route(["a", "b"], [".."]) == {["a", "b"]};
    assert Route(["a"], ["b", ".."]) == {["a"]} + Route(["a", "b"], [".."]);
    assert Route([], parts) == {[]} + Route(["a"], ["b", ".."]);
  }

  lemma ThroughHasTrees(c: Copy)
    requires c == ThroughTheCopy()
    ensures IsTree(c.src) && IsFs(c.fs)
  {
    assert IsName("b") && AreNames(["b"]);
    assert Init(["b"]) == [] && Init(["a"]) == [] && Init(["a", "b"]) == ["a"];
    forall r | r in c.src ensures AreNames(r) && InDirectory(c.src, r) {
    }
    forall p | p in c.fs ensures InDirectory(c.fs, p) {
    }
  }

  lemma ThroughIsOrdered(c: Copy)
    requires c == ThroughTheCopy()
    ensures Covers(c.order, c.src) && ParentFirst(c.order, 0) && Distinct(c.order)
  {
    assert Init(["b"]) == [] && c.order[..1] == [[]];
  }

  lemma ThroughIsValid(c: Copy)
    requires c == ThroughTheCopy()
    ensures c.Given() && c.Valid()
  {
    TargetThrough(c);
    ThroughHasTrees(c);
    ThroughIsOrdered(c);
    hide Target, IsTree, IsFs, Covers, ParentFirst, Distinct;
  }

  lemma ThroughFits(c: Copy)
    requires c == ThroughTheCopy()
    ensures Covers(c.order, c.src) && c.FitsFrom(0)
  {
    assert c.t + [] == ["a"] && c.t + ["b"] == ["a", "b"] && Init(["b"]) == [];
  }

  lemma ThroughIsNotPassable(c: Copy)
    requires c == ThroughTheCopy()
    ensures !Passable(c)
  {
    TargetThrough(c);
    hide Target, TargetRoute;
    assert ["a", "b"][1..] == ["b"] && c.t <= ["a", "b"];
    assert c.order[1] == ["b"];
    assert ClosedBelow(c, ["a", "b"]);
  }

  /** Such a copy fits, but the closed `b` bars the way to its own root, whose permissions cannot be set any more. */
  lemma ClosingTheWay(local: map<string, Node>, host: string)
    requires Holds(local, "src", ThroughTheCopy().src)
    ensures
      var c := ThroughTheCopy();
      && c.Valid() && c.FitsFrom(0)
      && var r := Run(ServerEnv(local, c.cwd), c.fs, Jobs(c, host, true)).1;
         r.Some? && !r.value.0
  {
    var c := ThroughTheCopy();
    ThroughIsValid(c);
    ThroughFits(c);
    ThroughIsNotPassable(c);
    hide Run, Copy.FitsFrom, Passable, Copy.Valid, Copy.Given, Holds, ServerEnv, Jobs, Copy.Landed, Copy.Rebuilt,
         Copy.LandsFrom;
    PreservingCopy(c, local, host);
  }

  // ---------------------------------------------------------------- into a directory

  /** An existing directory `d/f`, and a source with a file `f` that is copied to `d`. */
  ghost function OverDirectory(): Copy {
    var fs: Fs := map[[] := Dir(true), ["d"] := Dir(true), ["d", "f"] := Dir(true)];
    var src: Fs := map[[] := Dir(true), ["f"] := File([])];
    Copy(fs, src, ["d"], [], "src", "d", [[], ["f"]], 2)
  }

  lemma OverDirectoryHasTrees(c: Copy)
    requires c == OverDirectory()
    ensures IsTree(c.src) && IsFs(c.fs)
  {
    assert IsName("f") && AreNames(["f"]);
    assert Init(["f"]) == [] && Init(["d"]) == [] && Init(["d", "f"]) == ["d"];
    forall r | r in c.src ensures AreNames(r) && InDirectory(c.src, r) {
    }
    forall p | p in c.fs ensures InDirectory(c.fs, p) {
    }
  }

  lemma OverDirectoryIsOrdered(c: Copy)
    requires c == OverDirectory()
    ensures Covers(c.order, c.src) && ParentFirst(c.order, 0) && Distinct(c.order)
  {
    assert Init(["f"]) == [] && c.order[..1] == [[]];
  }

  lemma OverDirectoryTarget(c: Copy)
    requires c == OverDirectory()
    ensures Target(c.fs, c.cwd, c.stem) == Some(["d"])
  {
    SplitName("d");
    hide Split;
    assert Init(["d"]) == [] && [] + ["d"] == ["d"];
    LookNothing(c.fs, []);
  }

  lemma OverDirectoryIsValid(c: Copy)
    requires c == OverDirectory()
    ensures c.Given() && c.Valid()
  {
    OverDirectoryHasTrees(c);
    OverDirectoryIsOrdered(c);
    OverDirectoryTarget(c);
    hide Target, IsTree, IsFs, Covers, ParentFirst, Distinct;
  }

  lemma OverDirectoryLands(c: Copy)
    requires c == OverDirectory()
    ensures Covers(c.order, c.src) && c.LandsFrom(0) && c.Landed(c.fs[["d", "f", "f"] := File([])], false)
  {
    var fs' := c.fs[["d", "f", "f"] := File([])];
    assert c.t + [] == ["d"] && c.t + ["f"] == ["d", "f"] && Init(["f"]) == [] && ["d", "f"] + ["f"] == ["d", "f", "f"];
    assert c.Place(["f"]) == ["d", "f", "f"] && c.Place([]) == ["d"];
    forall p | forall i :: 0 <= i < |c.order| ==> c.Place(c.order[i]) != p ensures Same(c.fs, fs', p) {
      assert c.Place(c.order[1]) != p;
    }
  }

  /** The copy succeeds, and the file is then in `d/f/f`. */
  lemma IntoTheDirectory(local: map<string, Node>, host: string)
    requires Holds(local, "src", OverDirectory().src)
    ensures
      var c := OverDirectory();
      var (fs', r) := Run(ServerEnv(local, c.cwd), c.fs, Jobs(c, host, false));
      r.Some? && r.value.0 && fs' == c.fs[["d", "f", "f"] := File([])]
  {
    var c := OverDirectory();
    OverDirectoryIsValid(c);
    OverDirectoryLands(c);
    var fs' := c.fs[["d", "f", "f"] := File([])];
    hide Run, Copy.FitsFrom, Copy.Valid, Copy.Given, Holds, ServerEnv, Jobs, Copy.Landed, Copy.Rebuilt, Copy.LandsFrom;
    PlainCopy(c, local, host, false);
    LandedIsUnique(c, fs', Run(ServerEnv(local, c.cwd), c.fs, Jobs(c, host, false)).0, false);
  }
}
