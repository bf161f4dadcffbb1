/** The job list of a command line: which sides are remote, and what goes where. */
module CommandLine {
  import opened Wrappers
  import opened Paths
  import opened MainLoop
  import opened DirWalk

  datatype Options = Options(recurse: bool, preserve: bool)

  // ------------------------------------------------------------- users and hosts

  function IndexOf(s: string, c: char): (i: nat)
    ensures i <= |s| && (i < |s| ==> s[i] == c)
  {
    if s == "" || s[0] == c then 0 else 1 + IndexOf(s[1..], c)
  }

  function HostName(userAtHost: string): string {
    var i := IndexOf(userAtHost, '@');
    if i < |userAtHost| then userAtHost[i + 1..] else userAtHost
  }

  function UserName(userAtHost: string): Option<string> {
    var i := IndexOf(userAtHost, '@');
    if i < |userAtHost| then Some(userAtHost[..i]) else None
  }

  function Host(spec: FileSpec): Option<string> {
    match spec.host case None => None case Some(h) => Some(HostName(h))
  }

  function User(spec: FileSpec): Option<string> {
    match spec.host case None => None case Some(h) => UserName(h)
  }

  lemma {:induction false} FirstAt(user: string, host: string)
    requires '@' !in user
    ensures IndexOf(user + "@" + host, '@') == |user|
    ensures IndexOf(user, '@') == |user|
  {
    if user == "" {
      assert user + "@" + host == "@" + host;
    } else {
      assert (user + "@" + host)[1..] == user[1..] + "@" + host;
      assert user[0] in user && forall c :: c in user[1..] ==> c in user;
      FirstAt(user[1..], host);
    }
  }

  /** What stands before the first at-sign is the user, and what follows the host; without one, there is only a host. */
  lemma UserAtHost(user: string, host: string, filename: string)
    requires '@' !in user
    ensures
      var spec := FileSpec(Some(user + "@" + host), filename);
      User(spec) == Some(user) && Host(spec) == Some(host)
    ensures
      var spec := FileSpec(Some(user), filename);
      User(spec) == None && Host(spec) == Some(user)
    ensures User(FileSpec(None, filename)) == None && Host(FileSpec(None, filename)) == None
  {
    FirstAt(user, host);
    assert (user + "@" + host)[|user| + 1..] == host && (user + "@" + host)[..|user|] == user;
  }

  predicate OneUser(paths: seq<FileSpec>) {
    forall i, j :: 0 <= i < j < |paths| && User(paths[i]).Some? && User(paths[j]).Some? ==>
      User(paths[i]) == User(paths[j])
  }

  predicate OneHost(paths: seq<FileSpec>) {
    forall i, j :: 0 <= i < j < |paths| && Host(paths[i]).Some? && Host(paths[j]).Some? ==>
      Host(paths[i]) == Host(paths[j])
  }

  /** All of the sources are on the other side from the destination. */
  predicate OneSide(sources: seq<FileSpec>, destination: FileSpec) {
    forall i :: 0 <= i < |sources| ==> sources[i].host.Some? != destination.host.Some?
  }

  // ---------------------------------------------------------------- specification

  function JoinLocal(base: string, leaf: string): string {
    Push(base, leaf)
  }

  function PlainJob(source: FileSpec, destination: FileSpec, options: Options, many: bool): Result<Job, Error> {
    if many && (!options.recurse || destination.host.Some?) then
      match FileName(source.filename)
      case None => Err(NoFileName)
      case Some(leaf) =>
        var name :=
          if destination.host.Some? then JoinRemote(destination.filename, leaf)
          else JoinLocal(destination.filename, leaf);
        Ok(Job(source, destination.(filename := name), options.preserve, false))
    else Ok(Job(source, destination, options.preserve, false))
  }

  /** The jobs of each source in turn. */
  function AllJobs(sources: seq<FileSpec>, destination: FileSpec, options: Options, walk: string -> seq<WalkItem>,
                   many: bool)
    : Result<(bool, seq<Job>), Error>
    requires forall name :: Sound(walk(name))
  {
    if sources == [] then Ok((true, []))
    else
      var (ok, jobs) :- AllJobs(sources[..|sources| - 1], destination, options, walk, many);
      var source := sources[|sources| - 1];
      if options.recurse && destination.host.Some? then
        var (ok', jobs') :- SourceJobs(source, destination, options.preserve, walk(source.filename));
        Ok((ok && ok', jobs + jobs'))
      else
        var job :- PlainJob(source, destination, options, many);
        Ok((ok, jobs + [job]))
  }

  function JobSpecs(paths: seq<FileSpec>, options: Options, walk: string -> seq<WalkItem>)
    : Result<(bool, seq<Job>), Error>
    requires forall name :: Sound(walk(name))
  {
    if |paths| < 2 then Err(TooFewPaths)
    else if !OneUser(paths) then Err(ManyUsers)
    else if !OneHost(paths) then Err(ManyHosts)
    else
      var sources, destination := Init(paths), Last(paths);
      if !OneSide(sources, destination) then Err(NotOneRemote)
      else AllJobs(sources, destination, options, walk, |sources| > 1)
  }

  // ------------------------------------------------------------------- the method

  /** The first user named, and the set of hosts; `None` when there are two users. */
  method Remotes(paths: seq<FileSpec>) returns (r: Option<set<string>>)
    ensures r.Some? <==> OneUser(paths)
    ensures r.Some? ==> forall h :: h in r.value <==> exists i :: 0 <= i < |paths| && Host(paths[i]) == Some(h)
  {
    hide Host, User;
    var hosts: set<string> := {};
    var user: Option<string> := None;
    for i := 0 to |paths|
      invariant forall h :: h in hosts <==> exists j :: 0 <= j < i && Host(paths[j]) == Some(h)
      invariant forall j :: 0 <= j < i && User(paths[j]).Some? ==> User(paths[j]) == user
      invariant user.None? || exists j :: 0 <= j < i && User(paths[j]) == user
    {
      var host := Host(paths[i]);
      if host.Some? {
        hosts := hosts + {host.value};
      }
      var named := User(paths[i]);
      if named.Some? {
        if user.Some? {
          if user != named {
            return None;
          }
        } else {
          user := named;
        }
      }
    }
    r := Some(hosts);
  }

  lemma AtMostOne(hosts: set<string>)
    ensures |hosts| <= 1 <==> forall a, b :: a in hosts && b in hosts ==> a == b
  {
    if hosts != {} {
      var a :| a in hosts;
      var others := hosts - {a};
      assert |hosts| == 1 + |others|;
      if others != {} {
        var b :| b in others;
        assert b in hosts && a != b;
      } else {
        assert hosts == {a};
      }
    }
  }

  method BuildJobs(paths: seq<FileSpec>, options: Options, walk: string -> seq<WalkItem>)
    returns (r: Result<(bool, seq<Job>), Error>)
    requires forall name :: Sound(walk(name))
    ensures r == JobSpecs(paths, options, walk)
  {
    if |paths| < 2 {
      return Err(TooFewPaths);
    }
    var hosts := Remotes(paths);
    if hosts.None? {
      return Err(ManyUsers);
    }
    AtMostOne(hosts.value);
    HostsDecide(paths, hosts.value);
    if |hosts.value| > 1 {
      return Err(ManyHosts);
    }
    var sources, destination := Init(paths), Last(paths);
    if !OneSide(sources, destination) {
      return Err(NotOneRemote);
    }
    r := BuildFrom(sources, destination, options, walk);
  }

  lemma HostsDecide(paths: seq<FileSpec>, hosts: set<string>)
    requires forall h :: h in hosts <==> exists i :: 0 <= i < |paths| && Host(paths[i]) == Some(h)
    ensures OneHost(paths) <==> forall a, b :: a in hosts && b in hosts ==> a == b
  {
    if !OneHost(paths) {
      var i, j :| 0 <= i < j < |paths| && Host(paths[i]).Some? && Host(paths[j]).Some? &&
        Host(paths[i]) != Host(paths[j]);
      assert Host(paths[i]) == Some(Host(paths[i]).value) && Host(paths[j]) == Some(Host(paths[j]).value);
    }
  }

  method BuildFrom(sources: seq<FileSpec>, destination: FileSpec, options: Options, walk: string -> seq<WalkItem>)
    returns (r: Result<(bool, seq<Job>), Error>)
    requires forall name :: Sound(walk(name))
    ensures r == AllJobs(sources, destination, options, walk, |sources| > 1)
  {
    hide SourceJobs, PlainJob;
    var many := |sources| > 1;
    var success := true;
    var jobs: seq<Job> := [];
    assert sources[..|sources|] == sources;
    for i := 0 to |sources|
      invariant AllJobs(sources[..i], destination, options, walk, many) == Ok((success, jobs))
    {
      var source := sources[i];
      assert sources[..i + 1][..i] == sources[..i];
      if options.recurse && destination.host.Some? {
        var ok, output := RecurseLocalSource(source, destination, options.preserve, walk(source.filename), jobs);
        if ok.Err? {
          AllJobsFail(sources, destination, options, walk, many, i + 1);
          return Err(ok.error);
        }
        success := success && ok.value;
        jobs := output;
      } else {
        var job := PlainJob(source, destination, options, many);
        if job.Err? {
          AllJobsFail(sources, destination, options, walk, many, i + 1);
          return Err(job.error);
        }
        jobs := jobs + [job.value];
      }
    }
    r := Ok((success, jobs));
  }

  lemma {:induction false} AllJobsFail(sources: seq<FileSpec>, destination: FileSpec, options: Options,
                                       walk: string -> seq<WalkItem>, many: bool, i: nat)
    requires forall name :: Sound(walk(name))
    requires i <= |sources| && AllJobs(sources[..i], destination, options, walk, many).Err?
    ensures AllJobs(sources, destination, options, walk, many) ==
            AllJobs(sources[..i], destination, options, walk, many)
    decreases |sources|
  {
    if i == |sources| {
      assert sources[..i] == sources;
    } else {
      assert sources[..|sources| - 1][..i] == sources[..i];
      AllJobsFail(sources[..|sources| - 1], destination, options, walk, many, i);
    }
  }

  // -------------------------------------------------------------------- properties

  /** The side of the job that is remote. */
  function RemoteEnd(job: Job): FileSpec {
    if job.source.host.Some? then job.source else job.destination
  }

  ghost predicate OneWay(job: Job, toRemote: bool, host: Option<string>) {
    job.destination.host.Some? == toRemote && job.source.host.Some? == !toRemote && Host(RemoteEnd(job)) == host
  }

  lemma {:induction false} AllJobsOneWay(sources: seq<FileSpec>, destination: FileSpec, options: Options,
                                         walk: string -> seq<WalkItem>, many: bool, host: Option<string>)
    requires forall name :: Sound(walk(name))
    requires OneSide(sources, destination)
    requires destination.host.Some? ==> host == Host(destination)
    requires destination.host.None? ==> forall i :: 0 <= i < |sources| ==> Host(sources[i]) == host
    requires AllJobs(sources, destination, options, walk, many).Ok?
    ensures
      var (ok, jobs) := AllJobs(sources, destination, options, walk, many).value;
      forall i :: 0 <= i < |jobs| ==> OneWay(jobs[i], destination.host.Some?, host)
  {
    if sources == [] {
    } else {
      hide Listing, DestinationStem, HostName;
      var init := sources[..|sources| - 1];
      assert forall i :: 0 <= i < |init| ==> init[i] == sources[i];
      AllJobsOneWay(init, destination, options, walk, many, host);
    }
  }

  /** The remote side of the job is as some path of the command line gives it. */
  ghost predicate GivenBy(job: Job, paths: seq<FileSpec>) {
    exists i :: 0 <= i < |paths| && RemoteEnd(job).host == paths[i].host
  }

  lemma {:induction false} AllJobsGiven(paths: seq<FileSpec>, sources: seq<FileSpec>, destination: FileSpec,
                                        options: Options, walk: string -> seq<WalkItem>, many: bool)
    requires forall name :: Sound(walk(name))
    requires OneSide(sources, destination) && destination in paths
    requires forall i :: 0 <= i < |sources| ==> sources[i] in paths
    requires AllJobs(sources, destination, options, walk, many).Ok?
    ensures
      var jobs := AllJobs(sources, destination, options, walk, many).value.1;
      forall i :: 0 <= i < |jobs| ==> GivenBy(jobs[i], paths)
  {
    if sources == [] {
    } else {
      hide Listing, DestinationStem;
      var init, source := sources[..|sources| - 1], sources[|sources| - 1];
      assert forall i :: 0 <= i < |init| ==> init[i] == sources[i];
      AllJobsGiven(paths, init, destination, options, walk, many);
      var d :| 0 <= d < |paths| && paths[d] == destination;
      var k :| 0 <= k < |paths| && paths[k] == source;
    }
  }

  /** Jobs that name a user name the same. */
  lemma SameUser(paths: seq<FileSpec>, a: Job, b: Job)
    requires OneUser(paths) && GivenBy(a, paths) && GivenBy(b, paths)
    requires User(RemoteEnd(a)).Some? && User(RemoteEnd(b)).Some?
    ensures User(RemoteEnd(a)) == User(RemoteEnd(b))
  {
    hide UserName;
    var i :| 0 <= i < |paths| && RemoteEnd(a).host == paths[i].host;
    var j :| 0 <= j < |paths| && RemoteEnd(b).host == paths[j].host;
    assert User(paths[i]) == User(RemoteEnd(a)) && User(paths[j]) == User(RemoteEnd(b));
    if i < j {
    } else if j < i {
    }
  }

  /**
   The transfer loop takes the host and the direction from the first job, and the
   connection its user from the command line: every job of the list has the same
   host and direction, and the same user if it names one.
   */
  lemma JobsGoOneWay(paths: seq<FileSpec>, options: Options, walk: string -> seq<WalkItem>)
    requires forall name :: Sound(walk(name))
    requires JobSpecs(paths, options, walk).Ok?
    ensures
      var jobs := JobSpecs(paths, options, walk).value.1;
      && (forall i :: 0 <= i < |jobs| ==> OneWay(jobs[i], Remote(jobs), Host(RemoteEnd(jobs[0]))))
      && (forall i, j ::
            0 <= i < |jobs| && 0 <= j < |jobs| && User(RemoteEnd(jobs[i])).Some? && User(RemoteEnd(jobs[j])).Some?
            ==> User(RemoteEnd(jobs[i])) == User(RemoteEnd(jobs[j])))
  {
    hide AllJobs, HostName, UserName;
    var sources, destination := Init(paths), Last(paths);
    var host := if destination.host.Some? then Host(destination) else Host(sources[0]);
    if destination.host.None? {
      forall i | 0 <= i < |sources| ensures Host(sources[i]) == host {
        assert sources[i] == paths[i] && sources[0] == paths[0];
      }
    }
    AllJobsOneWay(sources, destination, options, walk, |sources| > 1, host);
    AllJobsGiven(paths, sources, destination, options, walk, |sources| > 1);
    hide OneWay, GivenBy, RemoteEnd, User;
    var jobs := JobSpecs(paths, options, walk).value.1;
    forall i, j | 0 <= i < |jobs| && 0 <= j < |jobs| && User(RemoteEnd(jobs[i])).Some? && User(RemoteEnd(jobs[j])).Some?
      ensures User(RemoteEnd(jobs[i])) == User(RemoteEnd(jobs[j]))
    {
      SameUser(paths, jobs[i], jobs[j]);
    }
  }

  /**
   The name of the destination of a plain copy: as given for a single source, and
   for several of a get of trees; otherwise the last part of the source goes behind
   what is given, with one separator between the two, and there has to be one.
   */
  lemma PlainDestination(source: FileSpec, destination: FileSpec, options: Options, many: bool)
    ensures
      var job := PlainJob(source, destination, options, many);
      var leaf := FileName(source.filename);
      if !many || (options.recurse && destination.host.None?) then
        job == Ok(Job(source, destination, options.preserve, false))
      else if leaf.None? then job == Err(NoFileName)
      else
        && job.Ok? && job.value.source == source && job.value.destination.host == destination.host
        && job.value.preserve == options.preserve && !job.value.directory
        && job.value.destination.filename ==
             (if destination.filename == "" || EndsWithSeparator(destination.filename)
              then destination.filename + leaf.value else destination.filename + "/" + leaf.value)
  {
    FileNameHasNoSeparator(source.filename);
    hide FileName;
    if FileName(source.filename).Some? {
      assert "" + FileName(source.filename).value == FileName(source.filename).value;
    }
  }

  ghost predicate EachIs(jobs: seq<Job>, sources: seq<FileSpec>, destination: FileSpec, options: Options, many: bool) {
    && |jobs| == |sources|
    && forall i :: 0 <= i < |sources| ==> PlainJob(sources[i], destination, options, many) == Ok(jobs[i])
  }

  ghost predicate SomeUnnamed(sources: seq<FileSpec>, destination: FileSpec, options: Options, many: bool) {
    exists i :: 0 <= i < |sources| && PlainJob(sources[i], destination, options, many).Err?
  }

  /** A copy that walks nothing has one job for each source, in order, unless one of them cannot be named. */
  lemma {:induction false} PlainJobsAre(sources: seq<FileSpec>, destination: FileSpec, options: Options,
                                        walk: string -> seq<WalkItem>, many: bool)
    requires (forall name :: Sound(walk(name))) && !(options.recurse && destination.host.Some?)
    ensures
      var r := AllJobs(sources, destination, options, walk, many);
      if SomeUnnamed(sources, destination, options, many) then r == Err(NoFileName)
      else r.Ok? && r.value.0 && EachIs(r.value.1, sources, destination, options, many)
  {
    hide PlainJob, Sound, SourceJobs, FileName, EndsWithSeparator;
    if sources == [] {
    } else {
      var init, last := sources[..|sources| - 1], sources[|sources| - 1];
      PlainJobsAre(init, destination, options, walk, many);
      PlainDestination(last, destination, options, many);
      assert forall i :: 0 <= i < |init| ==> init[i] == sources[i];
      if SomeUnnamed(init, destination, options, many) {
        var i :| 0 <= i < |init| && PlainJob(init[i], destination, options, many).Err?;
        assert PlainJob(sources[i], destination, options, many).Err?;
      } else if PlainJob(last, destination, options, many).Err? {
        assert SomeUnnamed(sources, destination, options, many);
      } else {
        assert !SomeUnnamed(sources, destination, options, many) by {
          forall i | 0 <= i < |sources| ensures PlainJob(sources[i], destination, options, many).Ok? {
            assert i < |init| ==> !PlainJob(init[i], destination, options, many).Err?;
          }
        }
      }
    }
  }

  /**
   What is wrong with a command line: its length before its users, these before
   its hosts, and these before its sides.
   */
  lemma RefusedIff(paths: seq<FileSpec>, options: Options, walk: string -> seq<WalkItem>)
    requires forall name :: Sound(walk(name))
    ensures
      var r := JobSpecs(paths, options, walk);
      var users := exists i, j :: 0 <= i < j < |paths| && User(paths[i]).Some? && User(paths[j]).Some?
                                  && User(paths[i]) != User(paths[j]);
      var hosts := exists i, j :: 0 <= i < j < |paths| && Host(paths[i]).Some? && Host(paths[j]).Some?
                                  && Host(paths[i]) != Host(paths[j]);
      if |paths| < 2 then r == Err(TooFewPaths)
      else if users then r == Err(ManyUsers)
      else if hosts then r == Err(ManyHosts)
      else if exists i :: 0 <= i < |paths| - 1 && paths[i].host.Some? == paths[|paths| - 1].host.Some? then
        r == Err(NotOneRemote)
      else r == AllJobs(paths[..|paths| - 1], paths[|paths| - 1], options, walk, |paths| > 2)
  {
    hide User, Host, AllJobs;
  }

  function MinDepth(destination: FileSpec): nat {
    if destination.filename == "" then 1 else 0
  }

  lemma CompleteSource(source: FileSpec, destination: FileSpec, preserve: bool, walk: seq<WalkItem>)
    requires Sound(walk) && SourceJobs(source, destination, preserve, walk).Ok?
    ensures SourceJobs(source, destination, preserve, walk).value.0 <==> Complete(walk, MinDepth(destination))
  {
    hide Listing, DestinationStem, Complete, Sound, EntryJobs;
    ListingIsComplete(walk, MinDepth(destination));
  }

  ghost predicate AllComplete(sources: seq<FileSpec>, depth: nat, walk: string -> seq<WalkItem>) {
    forall i :: 0 <= i < |sources| ==> Complete(walk(sources[i].filename), depth)
  }

  lemma AllCompleteSnoc(sources: seq<FileSpec>, depth: nat, walk: string -> seq<WalkItem>)
    requires sources != []
    ensures AllComplete(sources, depth, walk) <==>
            AllComplete(sources[..|sources| - 1], depth, walk) && Complete(walk(sources[|sources| - 1].filename), depth)
  {
    hide Complete;
    var init := sources[..|sources| - 1];
    assert forall i :: 0 <= i < |init| ==> init[i] == sources[i];
  }

  lemma {:induction false} CompleteSources(sources: seq<FileSpec>, destination: FileSpec, options: Options,
                                           walk: string -> seq<WalkItem>, many: bool)
    requires forall name :: Sound(walk(name))
    requires options.recurse && destination.host.Some?
    requires AllJobs(sources, destination, options, walk, many).Ok?
    ensures
      AllJobs(sources, destination, options, walk, many).value.0 <==> AllComplete(sources, MinDepth(destination), walk)
  {
    if sources == [] {
    } else {
      hide SourceJobs, Complete, AllComplete, Sound, MinDepth, PlainJob;
      var init, source := sources[..|sources| - 1], sources[|sources| - 1];
      CompleteSources(init, destination, options, walk, many);
      AllCompleteSnoc(sources, MinDepth(destination), walk);
      CompleteSource(source, destination, options.preserve, walk(source.filename));
    }
  }

  // -------------------------------------------------------------------- a client run

  datatype Exit = Usage(error: Error) | NoJobs | Fatal | Finished(success: bool, stats: Stats)

  /**
   From the command line to the result of the client. A command line that leads
   to no job at all gives no remote host, and the client stops with a panic.
   */
  function Client<S>(env: Env<S>, s: S, paths: seq<FileSpec>, options: Options, walk: string -> seq<WalkItem>)
    : (S, Exit)
    requires forall name :: Sound(walk(name))
  {
    match JobSpecs(paths, options, walk)
    case Err(e) => (s, Usage(e))
    case Ok((complete, jobs)) =>
      if jobs == [] then (s, NoJobs)
      else
        var (s, r) := Run(env, s, jobs);
        (s, match r case None => Fatal case Some((ok, stats)) => Finished(ok && complete, stats))
  }

  /**
   No silent loss: when a recursive put reports success, the walker listed every
   entry of every source, every entry became a job, and every job and every
   permission step was carried out.
   */
  lemma NoSilentLoss<S>(env: Env<S>, s: S, paths: seq<FileSpec>, options: Options, walk: string -> seq<WalkItem>)
    requires forall name :: Sound(walk(name))
    requires options.recurse && |paths| >= 2 && Last(paths).host.Some?
    requires
      var exit := Client(env, s, paths, options, walk).1;
      exit.Finished? && exit.success
    ensures
      var sources, destination := Init(paths), Last(paths);
      var jobs := JobSpecs(paths, options, walk).value.1;
      var (s1, os) := Transfers(env, s, jobs, Remote(jobs));
      var ps := Posts(env, s1, PostJobs(jobs)).1;
      && JobSpecs(paths, options, walk).Ok?
      && AllComplete(sources, MinDepth(destination), walk)
      && |os| == |jobs| && (forall i :: 0 <= i < |os| ==> os[i].Good())
      && |ps| == |PostJobs(jobs)| && AllMoved(ps)
  {
    hide AllJobs, Run, Transfers, Posts, PostJobs, AllComplete, Sound, OneUser, OneHost, OneSide, MinDepth;
    var (complete, jobs) := JobSpecs(paths, options, walk).value;
    CompleteSources(Init(paths), Last(paths), options, walk, |Init(paths)| > 1);
    SuccessMeansAllDone(env, s, jobs);
  }

  /** Nothing can be listed for any source of a recursive put. */
  ghost predicate NothingToPut(sources: seq<FileSpec>, destination: FileSpec, options: Options,
                               walk: string -> seq<WalkItem>)
  {
    && options.recurse && destination.host.Some?
    && forall i :: 0 <= i < |sources| ==> !Listable(walk(sources[i].filename), MinDepth(destination))
  }

  lemma SourceHasNoJobs(source: FileSpec, destination: FileSpec, preserve: bool, walk: seq<WalkItem>)
    requires Sound(walk) && SourceJobs(source, destination, preserve, walk).Ok?
    ensures SourceJobs(source, destination, preserve, walk).value.1 == [] <==> !Listable(walk, MinDepth(destination))
  {
    hide Listing, DestinationStem, Listable, Sound;
    ListsNothingIff(walk, MinDepth(destination));
  }

  lemma {:induction false} HasNoJobs(sources: seq<FileSpec>, destination: FileSpec, options: Options,
                                     walk: string -> seq<WalkItem>, many: bool)
    requires forall name :: Sound(walk(name))
    requires AllJobs(sources, destination, options, walk, many).Ok?
    ensures AllJobs(sources, destination, options, walk, many).value.1 == [] <==>
            sources == [] || NothingToPut(sources, destination, options, walk)
  {
    hide SourceJobs, Listable, Sound, MinDepth, PlainJob;
    if sources == [] {
    } else {
      var init, source := sources[..|sources| - 1], sources[|sources| - 1];
      HasNoJobs(init, destination, options, walk, many);
      NothingToPutSnoc(sources, destination, options, walk);
      if options.recurse && destination.host.Some? {
        SourceHasNoJobs(source, destination, options.preserve, walk(source.filename));
      }
    }
  }

  lemma NothingToPutSnoc(sources: seq<FileSpec>, destination: FileSpec, options: Options, walk: string -> seq<WalkItem>)
    requires sources != []
    ensures NothingToPut(sources, destination, options, walk) <==>
            && options.recurse && destination.host.Some?
            && (|sources| == 1 || NothingToPut(sources[..|sources| - 1], destination, options, walk))
            && !Listable(walk(sources[|sources| - 1].filename), MinDepth(destination))
  {
    hide Listable, MinDepth;
    var init := sources[..|sources| - 1];
    assert forall i :: 0 <= i < |init| ==> init[i] == sources[i];
  }

  /**
   The client panics over an empty job list exactly for an accepted command line
   that asks for a recursive put, none of whose sources yields an entry to list:
   the entry has to be Unicode, and for a bare host below the source.
   */
  lemma NoJobsIff<S>(env: Env<S>, s: S, paths: seq<FileSpec>, options: Options, walk: string -> seq<WalkItem>)
    requires forall name :: Sound(walk(name))
    ensures Client(env, s, paths, options, walk).1 == NoJobs <==>
            JobSpecs(paths, options, walk).Ok? && NothingToPut(Init(paths), Last(paths), options, walk)
  {
    hide AllJobs, Run, Sound, NothingToPut, OneUser, OneHost, OneSide;
    if JobSpecs(paths, options, walk).Ok? {
      HasNoJobs(Init(paths), Last(paths), options, walk, |Init(paths)| > 1);
    }
  }

  /** An empty directory, put to a bare host: its walk has the directory itself, but that is not to be copied. */
  lemma EmptyDirectoryToBareHost<S>(env: Env<S>, s: S)
    ensures
      var paths := [FileSpec(None, "d"), FileSpec(Some("h"), "")];
      var walk := (name: string) => [Entry(Some("d"), 0, true)];
      && (forall name :: Sound(walk(name)))
      && Client(env, s, paths, Options(true, false), walk).1 == NoJobs
  {
    var paths := [FileSpec(None, "d"), FileSpec(Some("h"), "")];
    var walk := (name: string) => [Entry(Some("d"), 0, true)];
    var options := Options(true, false);
    assert Init(paths) == [paths[0]];
    assert OneSide(Init(paths), paths[1]) && OneUser(paths) && OneHost(paths);
    assert Init(paths)[..0] == [];
    var item := [Entry(Some("d"), 0, true)];
    assert item[..0] == [];
    assert Listing(item, 1) == Ok((true, []));
    var none: seq<Job> := [];
    assert SourceJobs(paths[0], paths[1], false, item).value.1 == none;
    assert AllJobs([], paths[1], options, walk, false) == Ok((true, none));
    assert none + none == none;
    assert AllJobs([paths[0]], paths[1], options, walk, false) == Ok((true, none)) by {
      assert [paths[0]][..0] == [];
    }
  }
}
