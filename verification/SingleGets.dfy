/** A recursive get that turns out to be of a single file, and those that are refused before anything is listed. */
module SingleGets {
  import opened Wrappers
  import opened Numbers
  import opened Paths
  import opened RemoteFs
  import opened RemotePaths
  import opened MainLoop
  import opened RecursiveGet
  import opened PreservingGet
  import opened LocalDestinations

  /** To a file nothing is got, nor several sources to a place that is not there; nothing changes then. */
  lemma GetRefused(remote: map<string, Node>, cwd: Path, list: Lister<Fs>, fs: Fs, jobs: seq<Job>, supported: bool)
    requires jobs != []
    requires
      var found := Find(fs, cwd, jobs[0].destination.filename);
      !supported || (found.Ok? && fs[found.value].File?) || (found.Err? && |jobs| > 1)
    ensures GetRun(ClientEnv(remote, cwd), list, fs, jobs, supported) == (fs, None)
  {
    hide Run, Listings, ClientEnv, Find;
    ClientEnvIs(remote, cwd, fs, jobs[0].destination.filename);
  }

  // -------------------------------------------------------------------- one local file

  /** The job of a file that is listed under its own name. */
  function FileJob(root: string, host: string, name: string, preserve: bool): Job {
    Job(FileSpec(Some(host), root), FileSpec(None, name), preserve, false)
  }

  lemma RunOfFile(remote: map<string, Node>, cwd: Path, fs: Fs, job: Job)
    requires !job.directory && job.destination.host.None?
    ensures
      Run(ClientEnv(remote, cwd), fs, [job]) ==
        match Fetch(remote, cwd, fs, job, Transfer)
        case Ok((fs', bytes)) => (fs', Some((true, Stats(bytes, 0))))
        case Err(_) => (fs, Some((false, Stats(0, 0))))
  {
    hide ClientEnv, Fetch, Perform, Run;
    FetchIs(remote, cwd, fs, job);
    RunOfOne(ClientEnv(remote, cwd), fs, job);
  }

  lemma TransfersOfOne<S>(env: Env<S>, s: S, job: Job, remote: bool)
    ensures
      var (s', o) := Perform(env, s, job, remote);
      Transfers(env, s, [job], remote) == (s', [o])
  {
    hide Perform;
    assert [job][1..] == [];
    var (s', o) := Perform(env, s, job, remote);
    TransfersOfNone(env, s', remote);
    assert [o] + [] == [o];
  }

  lemma RunOfOne<S>(env: Env<S>, s: S, job: Job)
    requires job.destination.host.None?
    ensures
      var (s', o) := Perform(env, s, job, false);
      Run(env, s, [job]) ==
        if o.NoStream? then (s', None)
        else (s', Some((o.Good(), if o.Moved? then Stats(o.stats.bytes, o.stats.peak) else Stats(0, 0))))
  {
    hide Perform, Transfers, Posts, Total;
    var (s', o) := Perform(env, s, job, false);
    TransfersOfOne(env, s, job, false);
    PostsOfNone(env, s');
    TotalOfNone();
    TotalStep([], o);
    assert [] + [o] == [o];
    assert Failed in [o] <==> o == Failed;
    assert NoStream in [o] <==> o == NoStream;
    PostsAreNone([job]);
  }

  lemma PostsAreNone(jobs: seq<Job>)
    requires |jobs| == 1
    ensures PostJobs(jobs) == []
  {
  }

  /** The listing of the file, and whatever else decides about its local name. */
  lemma ListedFile(remote: map<string, Node>, cwd: Path, list: Lister<Fs>, fs: Fs, root: string, host: string,
                   destination: string, preserve: bool, intoNew: bool)
    requires list(fs, SourceJob(root, host, destination, preserve)) == (fs, Some([ListEntry(root, false)]))
    ensures
      Listings(ClientEnv(remote, cwd), list, fs, [SourceJob(root, host, destination, preserve)], intoNew) ==
        (fs, Some([FileJob(root, host, StemFor(destination, root, intoNew), preserve)]))
  {
    var job := SourceJob(root, host, destination, preserve);
    ClientEnvIs(remote, cwd, fs, destination);
    OneListing(ClientEnv(remote, cwd), list, fs, job, [ListEntry(root, false)], intoNew);
    assert root[|root|..] == "" && LeafOf(root, root) == "";
    hide StemFor;
    assert EntryJobs(job, [ListEntry(root, false)], intoNew) ==
           [FileJob(root, host, StemFor(destination, root, intoNew), preserve)];
  }

  // ------------------------------------------------------------ to a place that is not there

  /** A place that is not there is written by its own text, unless that ends in a separator. */
  lemma WriteNew(fs: Fs, cwd: Path, text: string, content: Bytes)
    requires IsFs(fs) && cwd in fs && [] in fs && text != "" && Find(fs, cwd, text).Err?
    ensures
      var written := WriteFile(fs, cwd, text, content);
      match Target(fs, cwd, text)
      case Some(t) =>
        !EndsWithSeparator(text) ==> t !in fs && written == Ok(fs[t := File(content)])
      case None => written.Err?
    ensures EndsWithSeparator(text) ==> WriteFile(fs, cwd, text, content).Err?
  {
    StemParts(text);
    var at, parts := Start(cwd, text), DropTrailing(BaseParts(text));
    if EndsWithSeparator(text) {
      EndsInEmptyPart(text);
      NothingUnderEmpty(fs, at, Split(text));
    }
    hide Look, Split, IsFs;
    match Target(fs, cwd, text)
    case Some(t) =>
      if !EndsWithSeparator(text) {
        assert BaseParts(text) == Split(text);
        TrailingOfPlain(text);
        LookSnoc(fs, at, parts);
        LookOne(fs, Look(fs, at, Init(parts)).value, Last(parts));
        AbsentTarget(fs, cwd, text, t);
        NewIsNotFound(fs, at, Split(text));
      }
    case None =>
      if !EndsWithSeparator(text) {
        TrailingOfPlain(text);
      }
  }

  lemma NothingUnderEmpty(fs: Fs, at: Path, parts: seq<string>)
    requires parts != [] && Last(parts) == ""
    ensures NewEntry(fs, at, parts).Err?
  {
  }

  /** The text of a name does not end in an empty part. */
  lemma {:induction false} LastOfSplit(s: string)
    requires !EndsWithSeparator(s) && s != ""
    ensures Last(Split(s)) != ""
  {
    if |s| == 1 {
      assert s == [s[0]] && s[1..] == "";
    } else {
      LastOfSplit(s[1..]);
    }
  }

  lemma TrailingOfPlain(text: string)
    requires !EndsWithSeparator(text) && text != ""
    ensures DropTrailing(Split(text)) == Split(text)
  {
    LastOfSplit(text);
  }

  /** What is missing in a directory that is there is not found. */
  lemma NewIsNotFound(fs: Fs, at: Path, parts: seq<string>)
    requires parts != [] && NewEntry(fs, at, parts).Ok? && NewEntry(fs, at, parts).value !in fs
    ensures Look(fs, at, parts) == Err(NotFound)
  {
    LookSnoc(fs, at, parts);
    LookOne(fs, Look(fs, at, Init(parts)).value, Last(parts));
  }

  /**
   A get of a single file to a place that is not there writes exactly that place,
   and makes no directory. It fails, and nothing changes, when the place has no
   directory that lets the file in, or its text asks for a directory.
   */
  lemma GetFileAsNew(remote: map<string, Node>, cwd: Path, list: Lister<Fs>, fs: Fs, root: string, host: string,
                     destination: string, preserve: bool, content: Bytes)
    requires IsFs(fs) && cwd in fs && [] in fs && destination != "" && Find(fs, cwd, destination).Err?
    requires root in remote && remote[root] == File(content) && FileName(root).Some?
    requires list(fs, SourceJob(root, host, destination, preserve)) == (fs, Some([ListEntry(root, false)]))
    ensures
      var run := GetRun(ClientEnv(remote, cwd), list, fs, [SourceJob(root, host, destination, preserve)], true);
      var target := Target(fs, cwd, destination);
      if target.Some? && !EndsWithSeparator(destination)
      then run == (fs[target.value := File(content)], Some((true, Stats(|content|, 0))))
      else run == (fs, Some((false, Stats(0, 0))))
  {
    var env, job := ClientEnv(remote, cwd), SourceJob(root, host, destination, preserve);
    var file := FileJob(root, host, destination, preserve);
    ListedFile(remote, cwd, list, fs, root, host, destination, preserve, true);
    ClientEnvIs(remote, cwd, fs, destination);
    assert StemFor(destination, root, true) == destination;
    WriteNew(fs, cwd, destination, content);
    RunOfFile(remote, cwd, fs, file);
    hide ClientEnv, Run, Listings, WriteFile, Target, Find, IsFs, EndsWithSeparator, FileName, Push;
  }

  // ----------------------------------------------------------- into a directory that is there

  /**
   A get of a single file into a directory goes by its name into it, if the
   directory lets it in; if that has a directory of the name, into it.
   */
  lemma GetFileInto(remote: map<string, Node>, cwd: Path, list: Lister<Fs>, fs: Fs, root: string, host: string,
                    destination: string, preserve: bool, d: Path, content: Bytes)
    requires Find(fs, cwd, destination) == Ok(d) && fs[d].Dir?
    requires root in remote && remote[root] == File(content) && FileName(root).Some?
    requires list(fs, SourceJob(root, host, destination, preserve)) == (fs, Some([ListEntry(root, false)]))
    ensures
      var run := GetRun(ClientEnv(remote, cwd), list, fs, [SourceJob(root, host, destination, preserve)], true);
      var name := FileName(root).value;
      if fs[d].open && Settles(fs, d + [name], name, 1)
      then run == (fs[Settle(fs, d + [name], name, 1) := File(content)], Some((true, Stats(|content|, 0))))
      else run == (fs, Some((false, Stats(0, 0))))
  {
    var env, job, name := ClientEnv(remote, cwd), SourceJob(root, host, destination, preserve), FileName(root).value;
    StemOfName(destination, root);
    hide ClientEnv, Run, Listings, Target, Find, Leads, DestinationOf, Settle, Settles, StemFor, CreateOrTruncate,
         IsName, Meta, FileName;
    FileNameIsName(root);
    IntoThere(fs, cwd, root, destination, d);
    ListedFile(remote, cwd, list, fs, root, host, destination, preserve, false);
    ClientEnvIs(remote, cwd, fs, destination);
    NameLeads(fs, cwd, destination, d, name);
    CreateAt(fs, cwd, destination, d, [name], name, content);
    RunOfFile(remote, cwd, fs, FileJob(root, host, DestinationOf(destination, [name]), preserve));
    RunIntoThere(env, list, fs, job, [FileJob(root, host, DestinationOf(destination, [name]), preserve)]);
  }

  lemma StemOfName(destination: string, root: string)
    requires FileName(root).Some?
    ensures StemFor(destination, root, false) == DestinationOf(destination, [FileName(root).value])
  {
    FileNameHasNoSeparator(root);
    hide FileName;
  }

  lemma NameLeads(fs: Fs, cwd: Path, destination: string, d: Path, name: string)
    requires Find(fs, cwd, destination) == Ok(d) && fs[d].Dir? && IsName(name)
    ensures Leads(fs, cwd, destination, d, [name]) && d + Init([name]) == d && d + [name] == d + [name]
  {
    TargetIsDirectory(fs, cwd, destination, d);
    hide Target, Find;
    assert Init([name]) == [] && d + [] == d && AreNames([name]);
  }
}
