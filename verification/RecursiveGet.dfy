/**
 A recursive copy from the remote end: the local names that the listing of the
 remote end leads to, and the local tree that the transfers build.
 */
module RecursiveGet {
  import opened Wrappers
  import opened Paths
  import opened RemoteFs
  import opened RemotePaths
  import opened MainLoop
  import opened Copies
  import opened RecursivePut

  /** One entry of the remote end's listing, by its path as the walker there gives it. */
  datatype ListEntry = ListEntry(name: string, directory: bool)

  type Lister<!S> = (S, Job) -> (S, Option<seq<ListEntry>>)

  // ------------------------------------------------------------------- local names

  function TrimSeparators(s: string): string {
    if s != "" && s[0] == '/' then TrimSeparators(s[1..]) else s
  }

  /** The path of an entry relative to the source, as far as the text shows it. */
  function LeafOf(name: string, source: string): string {
    TrimSeparators(if source <= name then name[|source|..] else name)
  }

  /**
   Into a destination that is there, the source directory itself goes; one that
   is not there becomes the source directory.
   */
  function StemFor(destination: string, source: string, intoNew: bool): string {
    var name := FileName(source).GetOr("");
    if intoNew || name == "" then destination else JoinRemote(destination, name)
  }

  function LocalName(stem: string, leaf: string): string {
    if leaf == "" then stem else JoinRemote(stem, leaf)
  }

  function EntryJob(job: Job, e: ListEntry, intoNew: bool): Job {
    var stem := StemFor(job.destination.filename, job.source.filename, intoNew);
    Job(job.source.(filename := e.name),
        job.destination.(filename := LocalName(stem, LeafOf(e.name, job.source.filename))),
        job.preserve, e.directory)
  }

  function EntryJobs(job: Job, entries: seq<ListEntry>, intoNew: bool): (jobs: seq<Job>)
    ensures |jobs| == |entries| && forall i :: 0 <= i < |entries| ==> jobs[i] == EntryJob(job, entries[i], intoNew)
  {
    seq(|entries|, i requires 0 <= i < |entries| => EntryJob(job, entries[i], intoNew))
  }

  // ----------------------------------------------------------------- specification

  /** Asks for each listing in turn; `None` is the fatal error. */
  function Listings<S>(env: Env<S>, list: Lister<S>, s: S, jobs: seq<Job>, intoNew: bool): (S, Option<seq<Job>>) {
    if jobs == [] then (s, Some([]))
    else
      var (s, before) := Listings(env, list, s, jobs[..|jobs| - 1], intoNew);
      if before.None? then (s, None)
      else
        var job := jobs[|jobs| - 1];
        var (s, ok) := env.open(s);
        if !ok then (s, None)
        else
          var (s, entries) := list(s, job);
          (s, match entries case None => None case Some(es) => Some(before.value + EntryJobs(job, es, intoNew)))
  }

  /** The whole run. A destination that is not there is only made when the source proves to be a directory. */
  function GetRun<S>(env: Env<S>, list: Lister<S>, s: S, jobs: seq<Job>, supported: bool): (S, Option<(bool, Stats)>)
    requires jobs != []
  {
    var destination := jobs[0].destination.filename;
    var there := env.stat(s, destination);
    var intoNew := there == Absent;
    if !supported || there == IsFile || (intoNew && |jobs| != 1) then (s, None)
    else
      var (s, newJobs) := Listings(env, list, s, jobs, intoNew);
      if newJobs.None? then (s, None)
      else if intoNew && newJobs.value != [] && newJobs.value[0].directory then
        var (s, made) := env.createAll(s, destination);
        if made == NotCreated then (s, None) else Run(env, s, newJobs.value)
      else Run(env, s, newJobs.value)
  }

  lemma {:induction false} ListingsFail<S>(env: Env<S>, list: Lister<S>, s: S, jobs: seq<Job>, intoNew: bool, i: nat)
    requires i <= |jobs| && Listings(env, list, s, jobs[..i], intoNew).1.None?
    ensures Listings(env, list, s, jobs, intoNew) == Listings(env, list, s, jobs[..i], intoNew)
    decreases |jobs|
  {
    if i == |jobs| {
      assert jobs[..i] == jobs;
    } else {
      assert jobs[..|jobs| - 1][..i] == jobs[..i];
      ListingsFail(env, list, s, jobs[..|jobs| - 1], intoNew, i);
    }
  }

  method ProcessRecursiveGet<S>(env: Env<S>, list: Lister<S>, start: S, jobs: seq<Job>, supported: bool)
    returns (s: S, r: Option<(bool, Stats)>)
    requires jobs != []
    ensures (s, r) == GetRun(env, list, start, jobs, supported)
  {
    s := start;
    if !supported {
      return s, None;
    }
    var destination := jobs[0].destination.filename;
    var there := env.stat(s, destination);
    if there == IsFile || (there == Absent && |jobs| != 1) {
      return s, None;
    }
    var intoNew := there == Absent;
    var newJobs: Option<seq<Job>>;
    s, newJobs := CollectJobs(env, list, s, jobs, intoNew);
    if newJobs.None? {
      return s, None;
    }
    if intoNew && newJobs.value != [] && newJobs.value[0].directory {
      var made := env.createAll(s, destination);
      s := made.0;
      if made.1 == NotCreated {
        return s, None;
      }
    }
    s, r := ProcessFileTransfers(env, s, newJobs.value);
  }

  method CollectJobs<S>(env: Env<S>, list: Lister<S>, start: S, jobs: seq<Job>, intoNew: bool)
    returns (s: S, r: Option<seq<Job>>)
    ensures (s, r) == Listings(env, list, start, jobs, intoNew)
  {
    s := start;
    var newJobs: seq<Job> := [];
    assert jobs[..|jobs|] == jobs;
    for i := 0 to |jobs|
      invariant Listings(env, list, start, jobs[..i], intoNew) == (s, Some(newJobs))
    {
      var job := jobs[i];
      assert jobs[..i + 1][..i] == jobs[..i];
      var stream := env.open(s);
      s := stream.0;
      if !stream.1 {
        ListingsFail(env, list, start, jobs, intoNew, i + 1);
        return s, None;
      }
      var listing := list(s, job);
      s := listing.0;
      if listing.1.None? {
        ListingsFail(env, list, start, jobs, intoNew, i + 1);
        return s, None;
      }
      var entries := listing.1.value;
      ghost var before, added := newJobs, EntryJobs(job, entries, intoNew);
      for k := 0 to |entries|
        invariant newJobs == before + added[..k]
      {
        newJobs := newJobs + [EntryJob(job, entries[k], intoNew)];
      }
      assert added[..|entries|] == added;
    }
    r := Some(newJobs);
  }

  // ----------------------------------------------------------------------- mirroring

  lemma TrimsToNames(r: Path)
    requires r != [] && AreNames(r)
    ensures TrimSeparators(Join(r)) == Join(r) == TrimSeparators("/" + Join(r)) && Join(r) != ""
  {
    assert IsName(r[0]);
    FirstOfJoin(r);
    assert Join(r)[0] != '/' by {
      assert r[0][0] in r[0];
    }
    assert ("/" + Join(r))[1..] == Join(r);
  }

  /** The local name of an entry hangs off the stem as the entry hangs off the source. */
  lemma NamesMirror(root: string, stem: string, r: Path)
    requires root != "" && AreNames(r)
    ensures LocalName(stem, LeafOf(SourceOf(root, r), root)) == if r == [] then stem else DestinationOf(stem, r)
  {
    if r != [] {
      TrimsToNames(r);
      var name := SourceOf(root, r);
      assert name == root + (if EndsWithSeparator(root) then Join(r) else "/" + Join(r));
      assert root <= name && name[|root|..] == if EndsWithSeparator(root) then Join(r) else "/" + Join(r);
    } else {
      assert root[|root|..] == "";
    }
  }

  // ------------------------------------------------------------------ local requests

  /** The client's environment for a get: local directories, and files that the remote end sends. */
  function ClientEnv(remote: map<string, Node>, cwd: Path): Env<Fs> {
    Env(fs => (fs, true),
        (fs, job, phase) =>
          match Fetch(remote, cwd, fs, job, phase)
          case Ok((fs', bytes)) => (fs', Some(Stats(bytes, 0)))
          case Err(_) => (fs, None),
        (fs, name) => Meta(fs, cwd, name),
        (fs, name) =>
          var (fs', ok) := CreateAll(fs, cwd, name);
          (fs', if ok then Created else NotCreated))
  }

  function Meta(fs: Fs, cwd: Path, name: string): Entity {
    match Stat(fs, cwd, name)
    case Ok(File(_)) => IsFile
    case Ok(Dir(_)) => IsOther
    case Err(_) => Absent
  }

  /** Sets the permissions of whatever is there; those of a file are not modelled. */
  function SetLocal(fs: Fs, cwd: Path, s: string, open: bool): Result<Fs, FsError> {
    match RemoteFs.Find(fs, cwd, s)
    case Err(e) => Err(e)
    case Ok(p) => Ok(if fs[p].Dir? then fs[p := Dir(open)] else fs)
  }

  /** A file arrives, or the permissions of a local directory are set from those that the listing gave. */
  function Fetch(remote: map<string, Node>, cwd: Path, fs: Fs, job: Job, phase: Phase): Result<(Fs, nat), ()> {
    var source, dest := job.source.filename, job.destination.filename;
    if source !in remote then Err(())
    else if phase == Post then
      if remote[source].File? then Ok((fs, 0))
      else
        match SetLocal(fs, cwd, dest, remote[source].open)
        case Ok(fs') => Ok((fs', 0))
        case Err(_) => Err(())
    else if remote[source].Dir? || FileName(source).None? then Err(())
    else
      match CreateOrTruncate(fs, cwd, dest, FileName(source).value, remote[source].content)
      case Ok(fs') => Ok((fs', |remote[source].content|))
      case Err(_) => Err(())
  }

  lemma FetchIs(remote: map<string, Node>, cwd: Path, fs: Fs, job: Job)
    requires !job.directory
    ensures Perform(ClientEnv(remote, cwd), fs, job, false) ==
            match Fetch(remote, cwd, fs, job, Transfer)
            case Ok((fs', bytes)) => (fs', Moved(Stats(bytes, 0)))
            case Err(_) => (fs, Failed)
  {
  }

  /** Setting permissions moves no bytes, and leaves files alone. */
  lemma PostMovesNothing(remote: map<string, Node>, cwd: Path, fs: Fs, job: Job)
    ensures
      var r := Fetch(remote, cwd, fs, job, Post);
      && (r.Ok? ==> r.value.1 == 0)
      && (job.source.filename in remote && remote[job.source.filename].File? ==> r == Ok((fs, 0)))
  {
  }

  lemma LocalDirIs(remote: map<string, Node>, cwd: Path, fs: Fs, job: Job)
    requires job.directory
    ensures
      var name := job.destination.filename;
      Perform(ClientEnv(remote, cwd), fs, job, false) ==
        match Meta(fs, cwd, name)
        case IsFile => (fs, Failed)
        case IsOther => (fs, LocalDir)
        case Absent => var (fs', ok) := CreateAll(fs, cwd, name); (fs', if ok then LocalDir else Failed)
  {
  }

  // -------------------------------------------------------------------------- growth

  lemma GrowsTransitive(a: Fs, b: Fs, c: Fs)
    requires Grows(a, b) && Grows(b, c)
    ensures Grows(a, c)
  {
  }

  lemma CreateDirGrows(fs: Fs, at: Path, parts: seq<string>)
    ensures CreateDirAt(fs, at, parts).Ok? ==> Grows(fs, CreateDirAt(fs, at, parts).value)
  {
    hide Look, NewEntry;
  }

  lemma {:induction false} CreateAllGrows(fs: Fs, at: Path, parts: seq<string>)
    ensures Grows(fs, CreateAllAt(fs, at, parts).0)
    decreases |parts|
  {
    hide Look, NewEntry, CreateDirAt, IsDirAt;
    CreateDirGrows(fs, at, parts);
    var named := DropDots(parts);
    if named == [] {
    } else {
      var up := DropDots(Init(named));
      var fs' := if up == [] then fs else CreateAllAt(fs, at, up).0;
      if up != [] {
        CreateAllGrows(fs, at, up);
      }
      CreateDirGrows(fs', at, parts);
      GrowsTransitive(fs, fs', MakeOrFind(fs', at, parts).0);
    }
  }

  lemma PerformGrows(remote: map<string, Node>, cwd: Path, fs: Fs, job: Job)
    ensures Grows(fs, Perform(ClientEnv(remote, cwd), fs, job, false).0)
  {
    hide ClientEnv, CreateAllAt, Look, Split, WriteFile, Push, IsDir, Meta, FileName;
    if job.directory {
      LocalDirIs(remote, cwd, fs, job);
      CreateAllGrows(fs, Start(cwd, job.destination.filename), Split(job.destination.filename));
    } else {
      FetchIs(remote, cwd, fs, job);
      var source, dest := job.source.filename, job.destination.filename;
      if source in remote && remote[source].File? && FileName(source).Some? {
        var target := if IsDir(fs, cwd, dest) then Push(dest, FileName(source).value) else dest;
        if WriteFile(fs, cwd, target, remote[source].content).Ok? {
          WriteFileGrows(fs, cwd, target, remote[source].content);
        }
      }
    }
  }

  lemma {:induction false} GetTransfersGrow(remote: map<string, Node>, cwd: Path, fs: Fs, jobs: seq<Job>)
    ensures Grows(fs, Transfers(ClientEnv(remote, cwd), fs, jobs, false).0)
    decreases |jobs|
  {
    hide ClientEnv, Perform;
    if jobs == [] {
    } else {
      PerformGrows(remote, cwd, fs, jobs[0]);
      var (fs', o) := Perform(ClientEnv(remote, cwd), fs, jobs[0], false);
      if o.Good() {
        GetTransfersGrow(remote, cwd, fs', jobs[1..]);
        GrowsTransitive(fs, fs', Transfers(ClientEnv(remote, cwd), fs', jobs[1..], false).0);
      }
    }
  }

  // ----------------------------------------------------------------- one local request

  function GetJob(root: string, host: string, stem: string, src: Fs, preserve: bool, r: Path): Job
    requires r in src
  {
    Job(FileSpec(Some(host), SourceOf(root, r)), FileSpec(None, if r == [] then stem else DestinationOf(stem, r)),
        preserve, src[r].Dir?)
  }

  ghost function GetJobs(c: Copy, host: string, preserve: bool): (jobs: seq<Job>)
    requires Covers(c.order, c.src)
    ensures |jobs| == |c.order|
    ensures forall i :: 0 <= i < |c.order| ==> jobs[i] == GetJob(c.root, host, c.stem, c.src, preserve, c.order[i])
  {
    seq(|c.order|, i requires 0 <= i < |c.order| => GetJob(c.root, host, c.stem, c.src, preserve, c.order[i]))
  }

  /** What the text of the target leads to. */
  lemma StemLook(fs: Fs, cwd: Path, stem: string, t: Path)
    requires IsFs(fs) && cwd in fs && [] in fs && stem != "" && Target(fs, cwd, stem) == Some(t)
    ensures
      var r := Look(fs, Start(cwd, stem), Split(stem));
      && (t in fs && fs[t].Dir? ==> r == Ok(t))
      && (t !in fs ==> r.Err?)
      && (r.Ok? ==> r.value == t)
  {
    StemParts(stem);
    RootLook(fs, cwd, stem, t);
    hide Look, BaseParts, Target, Split, IsFs;
    if t in fs && fs[t].Dir? {
      BaseFound(fs, cwd, stem, t);
    }
    if Look(fs, Start(cwd, stem), Split(stem)).Ok? {
      LookWithoutTrailing(fs, Start(cwd, stem), Split(stem));
      TargetIsFound(fs, cwd, stem, t, Look(fs, Start(cwd, stem), Split(stem)).value);
    }
  }

  lemma StemCreate(fs: Fs, cwd: Path, stem: string, t: Path)
    requires IsFs(fs) && cwd in fs && [] in fs && stem != "" && Target(fs, cwd, stem) == Some(t)
    requires !(t in fs && fs[t].Dir?)
    ensures CreateDirAt(fs, Start(cwd, stem), Split(stem)) ==
            if t !in fs then Ok(fs[t := Dir(true)]) else Err(AlreadyExists)
  {
    StemParts(stem);
    var parts := DropTrailing(BaseParts(stem));
    if t !in fs {
      AbsentTarget(fs, cwd, stem, t);
    } else {
      FileTarget(fs, cwd, stem, t);
    }
    hide Look, BaseParts, Target, Split, IsFs, NewEntry;
  }

  /** A file that is a target goes by its name. */
  lemma FileTarget(fs: Fs, cwd: Path, stem: string, t: Path)
    requires IsFs(fs) && cwd in fs && [] in fs && stem != "" && Target(fs, cwd, stem) == Some(t) && t in fs &&
             fs[t].File?
    ensures
      var parts := DropTrailing(BaseParts(stem));
      parts == [] || NewEntry(fs, Start(cwd, stem), parts) == Ok(t)
  {
    hide Look, Split;
    var parts := DropTrailing(BaseParts(stem));
    DropTrailingEnds(BaseParts(stem));
    PartsHaveNoSeparator(stem);
    if EndsWithSeparator(stem) {
      PartsHaveNoSeparator(stem[..|stem| - 1]);
    }
    if parts != [] {
      assert Last(parts) == BaseParts(stem)[|parts| - 1];
      assert InDirectory(fs, Look(fs, Start(cwd, stem), Init(parts)).value);
    }
  }

  ghost function Performed(c: Copy, remote: map<string, Node>, host: string, preserve: bool, i: nat): (Fs, Outcome)
    requires i < |c.order| && Covers(c.order, c.src)
  {
    Perform(ClientEnv(remote, c.cwd), c.Progress(i), GetJob(c.root, host, c.stem, c.src, preserve, c.order[i]), false)
  }

  /** Entry `i` has come to its place, or was refused. */
  ghost predicate Stepped(c: Copy, done: (Fs, Outcome), i: nat)
    requires i < |c.order| && Covers(c.order, c.src)
  {
    if c.Lands(c.order[i]) then done.0 == c.Progress(i + 1) && done.1.Good() else !done.1.Good()
  }

  lemma RootGetStep(c: Copy, remote: map<string, Node>, host: string, preserve: bool, i: nat)
    requires c.Valid() && i < |c.order| && c.order[i] == []
    ensures Stepped(c, Performed(c, remote, host, preserve, i), i)
  {
    hide IsTree, Target, IsFs, ParentFirst, Distinct, Covers, DestinationOf, FileName, SourceOf, Look, Split,
         CreateAllAt, CreateDirAt;
    RootIsDir(c.src);
    RootComesFirst(c, i);
    assert c.Progress(0) == c.fs && c.Progress(1) == c.fs[c.Place([]) := c.Arrived([])];
    var job := GetJob(c.root, host, c.stem, c.src, preserve, []);
    LocalDirIs(remote, c.cwd, c.fs, job);
    StemLook(c.fs, c.cwd, c.stem, c.t);
    assert c.t + [] == c.t;
    if c.t in c.fs && c.fs[c.t].Dir? {
      assert c.fs[c.t := c.fs[c.t]] == c.fs;
    } else {
      StemCreate(c.fs, c.cwd, c.stem, c.t);
      CreateAllOutcome(c.fs, Start(c.cwd, c.stem), Split(c.stem));
    }
  }

  /** Unless something is missing on the way, one attempt decides. */
  lemma CreateAllOutcome(fs: Fs, at: Path, parts: seq<string>)
    ensures
      var made := CreateDirAt(fs, at, parts);
      && (made.Ok? ==> CreateAllAt(fs, at, parts) == (made.value, true))
      && (made.Err? && made.error != NotFound ==> CreateAllAt(fs, at, parts) == (fs, IsDirAt(fs, at, parts)))
  {
  }

  lemma CreateDirAtEntry(fs: Fs, cwd: Path, stem: string, t: Path, r: Path)
    requires Leads(fs, cwd, stem, t, r) && t + r !in fs
    ensures
      var dest := DestinationOf(stem, r);
      CreateDirAt(fs, Start(cwd, dest), Split(dest)) ==
        if !fs[t + Init(r)].open then Err(PermissionDenied) else Ok(fs[t + r := Dir(true)])
  {
    LeadsTo(fs, cwd, stem, t, r);
    NameEndsPath(DestinationOf(stem, r));
    hide Look, Split, NewEntry, DestinationOf, Leads;
  }

  lemma ClosedEntry(fs: Fs, cwd: Path, stem: string, t: Path, r: Path)
    requires Leads(fs, cwd, stem, t, r) && !fs[t + Init(r)].open
    ensures
      var dest := DestinationOf(stem, r);
      && Look(fs, Start(cwd, dest), Split(dest)) == Err(PermissionDenied)
      && CreateDirAt(fs, Start(cwd, dest), Split(dest)) == Err(PermissionDenied)
      && dest != ""
  {
    LeadsTo(fs, cwd, stem, t, r);
    NameEndsPath(DestinationOf(stem, r));
    hide Look, Split, NewEntry, DestinationOf, Leads;
  }

  lemma GetDirectoryStep(c: Copy, remote: map<string, Node>, host: string, preserve: bool, i: nat)
    requires c.Valid() && i < |c.order| && c.LandsUpTo(i) && c.order[i] != [] && c.src[c.order[i]].Dir?
    ensures Stepped(c, Performed(c, remote, host, preserve, i), i)
  {
    hide IsTree, Target, IsFs, ParentFirst, Distinct, Leads, Copy.LandsUpTo, DestinationOf, SourceOf, FileName, Look,
         Split, CreateAllAt, CreateDirAt, Shows;
    var r, s := c.order[i], c.Progress(i);
    var dest := DestinationOf(c.stem, r);
    LocalDirIs(remote, c.cwd, s, GetJob(c.root, host, c.stem, c.src, preserve, r));
    TargetStays(c, i);
    ProgressShows(c, i);
    EntryLeads(c, i, s);
    NotYetPlaced(c, i);
    if !c.LetIn(r) {
      ClosedEntry(s, c.cwd, c.stem, c.t, r);
      CreateAllOutcome(s, Start(c.cwd, dest), Split(dest));
    } else {
      FoundEntry(s, c.cwd, c.stem, c.t, r);
      if c.t + r !in s {
        CreateDirAtEntry(s, c.cwd, c.stem, c.t, r);
        CreateAllOutcome(s, Start(c.cwd, dest), Split(dest));
      } else if s[c.t + r].Dir? {
        assert s[c.t + r := s[c.t + r]] == s;
      }
    }
  }

  lemma FoundEntry(fs: Fs, cwd: Path, stem: string, t: Path, r: Path)
    requires Leads(fs, cwd, stem, t, r) && fs[t + Init(r)].open
    ensures
      var dest := DestinationOf(stem, r);
      && dest != ""
      && Find(fs, cwd, dest) == if t + r in fs then Ok(t + r) else Err(NotFound)
  {
    LeadsTo(fs, cwd, stem, t, r);
    hide Look, Split, NewEntry, DestinationOf, Leads;
  }

  lemma GetFileStep(c: Copy, remote: map<string, Node>, host: string, preserve: bool, i: nat)
    requires c.Valid() && Holds(remote, c.root, c.src) && c.pushes == 1
    requires i < |c.order| && c.LandsUpTo(i) && c.order[i] != [] && c.src[c.order[i]].File?
    ensures Stepped(c, Performed(c, remote, host, preserve, i), i)
  {
    hide IsTree, Target, IsFs, ParentFirst, Distinct, Leads, Copy.LandsUpTo, DestinationOf, SourceOf, FileName, Holds,
         CreateOrTruncate, Shows, Settle, Settles;
    var r, s := c.order[i], c.Progress(i);
    assert r in c.src;
    SourceHeld(c, remote, r);
    FetchIs(remote, c.cwd, s, GetJob(c.root, host, c.stem, c.src, preserve, r));
    TargetStays(c, i);
    ProgressShows(c, i);
    EntryLeads(c, i, s);
    NotYetPlaced(c, i);
    SettlesSame(c.fs, s, c.t + r, Last(r), 1);
    CreateAt(s, c.cwd, c.stem, c.t, r, Last(r), c.src[r].content);
  }

  lemma GetStep(c: Copy, remote: map<string, Node>, host: string, preserve: bool, i: nat)
    requires c.Valid() && Holds(remote, c.root, c.src) && c.pushes == 1 && i < |c.order| && c.LandsUpTo(i)
    ensures Stepped(c, Performed(c, remote, host, preserve, i), i)
    ensures !Performed(c, remote, host, preserve, i).1.NoStream?
  {
    hide Target, IsFs, ParentFirst, Distinct, Copy.LandsUpTo, Holds, Stepped, Copy.Progress;
    RootIsDir(c.src);
    if c.order[i] == [] {
      RootGetStep(c, remote, host, preserve, i);
    } else if c.src[c.order[i]].File? {
      GetFileStep(c, remote, host, preserve, i);
    } else {
      GetDirectoryStep(c, remote, host, preserve, i);
    }
    StreamsOpen(remote, c.cwd, c.Progress(i), GetJob(c.root, host, c.stem, c.src, preserve, c.order[i]));
  }

  lemma StreamsOpen(remote: map<string, Node>, cwd: Path, fs: Fs, job: Job)
    ensures !Perform(ClientEnv(remote, cwd), fs, job, false).1.NoStream?
  {
    hide Fetch, Meta, CreateAll;
  }

  // -------------------------------------------------------------------- the whole run

  lemma GetOne(c: Copy, remote: map<string, Node>, host: string, preserve: bool, i: nat)
    requires c.Given() && i < |c.order|
    ensures
      var jobs, env := GetJobs(c, host, preserve), ClientEnv(remote, c.cwd);
      var (s', o) := Performed(c, remote, host, preserve, i);
      var all := Transfers(env, c.Progress(i), jobs[i..], false);
      var later := Transfers(env, s', jobs[i + 1..], false);
      if o.Good() then all.0 == later.0 && all.1 == [o] + later.1 else all == (s', [o])
  {
    hide ClientEnv, Perform, IsTree, IsFs, Target, ParentFirst, Distinct, GetJob, Copy.Progress;
    TransfersStep(ClientEnv(remote, c.cwd), c.Progress(i), GetJobs(c, host, preserve), false, i, []);
    var all := Transfers(ClientEnv(remote, c.cwd), c.Progress(i), GetJobs(c, host, preserve)[i..], false).1;
    assert [] + all == all;
  }

  /** From entry `i` on, all local steps succeed exactly when every entry can land, and then each is in its place. */
  lemma {:induction false} GetRebuildFrom(c: Copy, remote: map<string, Node>, host: string, preserve: bool, i: nat)
    requires c.Valid() && Holds(remote, c.root, c.src) && c.pushes == 1 && i <= |c.order| && c.LandsUpTo(i)
    ensures
      var r := Transfers(ClientEnv(remote, c.cwd), c.Progress(i), GetJobs(c, host, preserve)[i..], false);
      && NoStream !in r.1
      && (AllGood(r.1) <==> c.LandsFrom(i))
      && (c.LandsFrom(i) ==> r.0 == c.Progress(|c.order|) && |r.1| == |c.order| - i)
    decreases |c.order| - i
  {
    hide ClientEnv, IsTree, IsFs, Target, ParentFirst, Distinct, Copy.Progress, Holds, GetJobs, Performed, Copy.Lands;
    var jobs := GetJobs(c, host, preserve);
    if i == |c.order| {
      assert jobs[i..] == [];
    } else {
      GetOne(c, remote, host, preserve, i);
      GetStep(c, remote, host, preserve, i);
      assert c.LandsFrom(i) <==> c.Lands(c.order[i]) && c.LandsFrom(i + 1);
      var (s', o) := Performed(c, remote, host, preserve, i);
      if c.Lands(c.order[i]) {
        GetRebuildFrom(c, remote, host, preserve, i + 1);
        GoodAfterGood(o, Transfers(ClientEnv(remote, c.cwd), s', jobs[i + 1..], false).1);
      } else {
        assert Transfers(ClientEnv(remote, c.cwd), c.Progress(i), jobs[i..], false).1 == [o];
        assert ![o][0].Good();
      }
    }
  }

  /**
   A get that does not set permissions succeeds exactly when every entry can land
   at the local target, and then each is in its place.
   */
  lemma GetCopies(c: Copy, remote: map<string, Node>, host: string, preserve: bool)
    requires c.Valid() && Holds(remote, c.root, c.src) && c.order != [] && c.pushes == 1 && !c.Sets(preserve)
    ensures
      var (fs', r) := Run(ClientEnv(remote, c.cwd), c.fs, GetJobs(c, host, preserve));
      && r.Some?
      && (r.value.0 <==> c.LandsFrom(0))
      && (r.value.0 ==> c.Landed(fs', false))
      && (r.value.0 && c.Rebuilt(fs', false) <==> c.FitsFrom(0))
  {
    hide ClientEnv, IsTree, IsFs, Target, ParentFirst, Distinct, Holds, Transfers, Posts, KeptReversed, Total,
         Copy.Lands, Copy.Fits, Copy.Progress, Copy.Landed, Copy.Rebuilt, ByteSum, IsPeak;
    var jobs := GetJobs(c, host, preserve);
    NothingYet(c);
    assert jobs[0..] == jobs;
    GetRebuildFrom(c, remote, host, preserve, 0);
    if |c.order| > 1 {
      NoneKept(jobs);
    }
    PostsOfNone(ClientEnv(remote, c.cwd), Transfers(ClientEnv(remote, c.cwd), c.fs, jobs, false).0);
    SuccessMeansAllDone(ClientEnv(remote, c.cwd), c.fs, jobs);
    if c.LandsFrom(0) {
      ProgressLanded(c);
      LandedIsRebuilt(c, c.Progress(|c.order|), false);
    } else if c.FitsFrom(0) {
      FitsAreLands(c);
    }
  }
}
