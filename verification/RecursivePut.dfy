/**
 A recursive copy to the remote end: the transfer loop and the server's requests
 put every entry of the source tree into its place.
 */
module RecursivePut {
  import opened Wrappers
  import opened Paths
  import opened RemoteFs
  import opened RemotePaths
  import opened MainLoop
  import opened Copies

  // ------------------------------------------------------------------- the jobs

  /** The path text of an entry, as the walker builds it. */
  function SourceOf(root: string, r: Path): string {
    if r == [] then root else JoinRemote(root, Join(r))
  }

  /** The local file system holds the source tree under `root`. */
  ghost predicate Holds(local: map<string, Node>, root: string, src: Fs) {
    forall r :: r in src ==> SourceOf(root, r) in local && local[SourceOf(root, r)] == src[r]
  }

  function JobFor(root: string, host: string, stem: string, src: Fs, preserve: bool, r: Path): Job
    requires r in src
  {
    Job(FileSpec(None, SourceOf(root, r)), FileSpec(Some(host), DestinationOf(stem, r)), preserve, src[r].Dir?)
  }

  ghost function JobsFor(root: string, host: string, stem: string, src: Fs, preserve: bool, order: seq<Path>)
    : (jobs: seq<Job>)
    requires Covers(order, src)
    ensures |jobs| == |order|
    ensures forall i :: 0 <= i < |order| ==> jobs[i] == JobFor(root, host, stem, src, preserve, order[i])
  {
    seq(|order|, i requires 0 <= i < |order| => JobFor(root, host, stem, src, preserve, order[i]))
  }

  /** One request, by the phase and the kind of the job. */
  function Send(local: map<string, Node>, cwd: Path, fs: Fs, job: Job, phase: Phase): Result<(Fs, nat), ()> {
    var source, dest := job.source.filename, job.destination.filename;
    if phase == Post then
      if source in local && local[source].Dir? then
        match SetPermissions(fs, cwd, dest, local[source].open)
        case Ok(fs') => Ok((fs', 0))
        case Err(_) => Err(())
      else Err(())
    else if job.directory then
      match MakeDirectory(fs, cwd, dest)
      case Ok(fs') => Ok((fs', 0))
      case Err(_) => Err(())
    else if source in local && local[source].File? && FileName(source).Some? then
      match PutFile(fs, cwd, dest, FileName(source).value, local[source].content)
      case Ok(fs') => Ok((fs', |local[source].content|))
      case Err(_) => Err(())
    else Err(())
  }

  /** The client's environment: streams open, requests are carried out by the server, and no local directory is made. */
  function ServerEnv(local: map<string, Node>, cwd: Path): Env<Fs> {
    Env(fs => (fs, true),
        (fs, job, phase) =>
          match Send(local, cwd, fs, job, phase)
          case Ok((fs', bytes)) => (fs', Some(Stats(bytes, 0)))
          case Err(_) => (fs, None),
        (fs, name) => Absent,
        (fs, name) => (fs, NotCreated))
  }

  lemma RequestIsSend(local: map<string, Node>, cwd: Path, fs: Fs, job: Job, phase: Phase)
    ensures Request(ServerEnv(local, cwd), fs, job, phase) ==
            match Send(local, cwd, fs, job, phase)
            case Ok((fs', bytes)) => (fs', Moved(Stats(bytes, 0)))
            case Err(_) => (fs, Failed)
  {
  }

  // ------------------------------------------------------------- one transfer request

  function Size(n: Node): nat {
    if n.File? then |n.content| else 0
  }

  /** The request of the job for entry `i`, by the server that has the entries before it. */
  ghost function Sent(c: Copy, local: map<string, Node>, i: nat): Result<(Fs, nat), ()>
    requires i < |c.order| && Covers(c.order, c.src)
  {
    Send(local, c.cwd, c.Progress(i), JobFor(c.root, "", c.stem, c.src, false, c.order[i]), Transfer)
  }

  lemma SendIgnores(local: map<string, Node>, cwd: Path, fs: Fs, root: string, host: string, stem: string, src: Fs,
                    preserve: bool, r: Path, phase: Phase)
    requires r in src
    ensures Send(local, cwd, fs, JobFor(root, host, stem, src, preserve, r), phase) ==
            Send(local, cwd, fs, JobFor(root, "", stem, src, false, r), phase)
  {
  }

  /** The source of an entry, and the name that it is sent by. */
  lemma SourceHeld(c: Copy, local: map<string, Node>, r: Path)
    requires c.Given() && Holds(local, c.root, c.src) && r in c.src
    ensures SourceOf(c.root, r) in local && local[SourceOf(c.root, r)] == c.src[r]
    ensures r != [] ==> FileName(SourceOf(c.root, r)) == Some(Last(r))
  {
    hide Target, IsFs, ParentFirst, Distinct;
    EntryIsNamed(c.src, r);
    if r != [] {
      FileNameOfJoin(c.root, r);
    }
  }

  /** Entry `i` has come to its place, with as many bytes as it has. */
  ghost predicate Comes(c: Copy, sent: Result<(Fs, nat), ()>, i: nat)
    requires i < |c.order| && Covers(c.order, c.src)
  {
    if c.Lands(c.order[i]) then sent == Ok((c.Progress(i + 1), Size(c.src[c.order[i]]))) else sent.Err?
  }

  lemma RootStep(c: Copy, local: map<string, Node>, i: nat)
    requires c.Valid() && i < |c.order| && c.order[i] == []
    ensures Comes(c, Sent(c, local, i), i)
  {
    hide IsTree, Target, MakeDirectory, PutFile, SetPermissions, IsFs, ParentFirst, Distinct, Covers, DestinationOf,
         FileName, SourceOf;
    RootIsDir(c.src);
    RootComesFirst(c, i);
    MakeDirectoryAtRoot(c.fs, c.cwd, c.stem, c.t);
    hide Copy.Valid;
    assert c.Progress(0) == c.fs && c.Progress(1) == c.fs[c.Place([]) := c.Arrived([])];
    assert c.t + [] == c.t;
    if c.t in c.fs {
      assert c.fs[c.t := c.fs[c.t]] == c.fs;
    }
  }

  lemma DirectoryStep(c: Copy, local: map<string, Node>, i: nat)
    requires c.Valid() && i < |c.order| && c.LandsUpTo(i) && c.order[i] != [] && c.src[c.order[i]].Dir?
    ensures Comes(c, Sent(c, local, i), i)
  {
    hide IsTree, Target, MakeDirectory, PutFile, IsFs, ParentFirst, Distinct, Leads, Copy.LandsUpTo, DestinationOf,
         SourceOf, FileName, Shows;
    var r, s := c.order[i], c.Progress(i);
    TargetStays(c, i);
    ProgressShows(c, i);
    EntryLeads(c, i, s);
    NotYetPlaced(c, i);
    MakeDirectoryAt(s, c.cwd, c.stem, c.t, r);
    if c.t + r in s && s[c.t + r].Dir? {
      assert s[c.t + r := s[c.t + r]] == s;
    }
  }

  lemma FileStep(c: Copy, local: map<string, Node>, i: nat)
    requires c.Valid() && Holds(local, c.root, c.src) && c.pushes == 2
    requires i < |c.order| && c.LandsUpTo(i) && c.order[i] != [] && c.src[c.order[i]].File?
    ensures Comes(c, Sent(c, local, i), i)
  {
    hide IsTree, Target, MakeDirectory, PutFile, IsFs, ParentFirst, Distinct, Leads, Copy.LandsUpTo, DestinationOf,
         SourceOf, FileName, Shows, Holds, Settle, Settles;
    var r, s := c.order[i], c.Progress(i);
    assert r in c.src;
    TargetStays(c, i);
    ProgressShows(c, i);
    EntryLeads(c, i, s);
    NotYetPlaced(c, i);
    SourceHeld(c, local, r);
    SettlesSame(c.fs, s, c.t + r, Last(r), 2);
    PutFileAt(s, c.cwd, c.stem, c.t, r, Last(r), c.src[r].content);
  }

  /**
   The request for an entry succeeds exactly when it can land, whatever the
   entries before it have left, and then puts it into its place.
   */
  lemma EntryStep(c: Copy, local: map<string, Node>, i: nat)
    requires c.Valid() && Holds(local, c.root, c.src) && c.pushes == 2 && i < |c.order| && c.LandsUpTo(i)
    ensures Comes(c, Sent(c, local, i), i)
  {
    hide IsFs, Target, ParentFirst, Distinct, Copy.Progress, Holds, Sent, Comes, Copy.LandsUpTo;
    RootIsDir(c.src);
    if c.order[i] == [] {
      RootStep(c, local, i);
    } else if c.src[c.order[i]].Dir? {
      DirectoryStep(c, local, i);
    } else {
      FileStep(c, local, i);
    }
  }

  // ------------------------------------------------------------ the transfer phase

  ghost predicate AllGood(os: seq<Outcome>) {
    forall i :: 0 <= i < |os| ==> os[i].Good()
  }

  lemma GoodAfterGood(o: Outcome, os: seq<Outcome>)
    requires o.Good()
    ensures AllGood([o] + os) <==> AllGood(os)
  {
    if AllGood([o] + os) {
      forall i | 0 <= i < |os| ensures os[i].Good() {
        assert ([o] + os)[i + 1] == os[i];
      }
    }
  }

  /** The outcomes of a transfer of the entries from `i` on in which each is moved. */
  ghost function AllSent(c: Copy, i: nat): (os: seq<Outcome>)
    requires Covers(c.order, c.src) && i <= |c.order|
    ensures |os| == |c.order| - i && AllGood(os)
    decreases |c.order| - i
  {
    if i == |c.order| then [] else [Moved(Stats(Size(c.src[c.order[i]]), 0))] + AllSent(c, i + 1)
  }

  ghost function Jobs(c: Copy, host: string, preserve: bool): seq<Job>
    requires Covers(c.order, c.src)
  {
    JobsFor(c.root, host, c.stem, c.src, preserve, c.order)
  }

  lemma TransferOne(c: Copy, local: map<string, Node>, host: string, preserve: bool, i: nat)
    requires c.Given() && i < |c.order|
    ensures
      var jobs := Jobs(c, host, preserve);
      var env := ServerEnv(local, c.cwd);
      var all := Transfers(env, c.Progress(i), jobs[i..], true);
      match Sent(c, local, i)
      case Err(_) => all == (c.Progress(i), [Failed])
      case Ok((fs', bytes)) =>
        var later := Transfers(env, fs', jobs[i + 1..], true);
        all.0 == later.0 && all.1 == [Moved(Stats(bytes, 0))] + later.1
  {
    hide ServerEnv, Request, Send, IsTree, IsFs, Target, ParentFirst, Distinct, JobFor, Copy.Progress;
    var jobs := Jobs(c, host, preserve);
    var r := c.order[i];
    RequestIsSend(local, c.cwd, c.Progress(i), jobs[i], Transfer);
    SendIgnores(local, c.cwd, c.Progress(i), c.root, host, c.stem, c.src, preserve, r, Transfer);
    TransfersStep(ServerEnv(local, c.cwd), c.Progress(i), jobs, true, i, []);
    assert Perform(ServerEnv(local, c.cwd), c.Progress(i), jobs[i], true)
        == Request(ServerEnv(local, c.cwd), c.Progress(i), jobs[i], Transfer);
    var all := Transfers(ServerEnv(local, c.cwd), c.Progress(i), jobs[i..], true).1;
    assert [] + all == all;
  }

  /** From entry `i` on, all succeeds exactly when every entry can land, and then each is in its place. */
  lemma {:induction false} RebuildFrom(c: Copy, local: map<string, Node>, host: string, preserve: bool, i: nat)
    requires c.Valid() && Holds(local, c.root, c.src) && c.pushes == 2 && i <= |c.order| && c.LandsUpTo(i)
    ensures
      var r := Transfers(ServerEnv(local, c.cwd), c.Progress(i), Jobs(c, host, preserve)[i..], true);
      && (AllGood(r.1) <==> c.LandsFrom(i))
      && (c.LandsFrom(i) ==> r == (c.Progress(|c.order|), AllSent(c, i)))
    decreases |c.order| - i
  {
    hide ServerEnv, IsTree, IsFs, Target, ParentFirst, Distinct, Copy.Progress, Copy.Lands, Holds, JobsFor, Sent;
    if i == |c.order| {
      assert Jobs(c, host, preserve)[i..] == [];
    } else {
      TransferOne(c, local, host, preserve, i);
      EntryStep(c, local, i);
      assert c.LandsFrom(i) <==> c.Lands(c.order[i]) && c.LandsFrom(i + 1);
      var r := Transfers(ServerEnv(local, c.cwd), c.Progress(i), Jobs(c, host, preserve)[i..], true);
      if c.Lands(c.order[i]) {
        RebuildFrom(c, local, host, preserve, i + 1);
        var later := Transfers(ServerEnv(local, c.cwd), c.Progress(i + 1), Jobs(c, host, preserve)[i + 1..], true);
        GoodAfterGood(Moved(Stats(Size(c.src[c.order[i]]), 0)), later.1);
      } else {
        assert !r.1[0].Good();
      }
    }
  }

  ghost predicate StoppedAfter(os: seq<Outcome>, n: nat) {
    |os| == n + 1 && AllGood(os[..n]) && os[n] == Failed
  }

  /** The bytes of the entries from `i` up to `k`. */
  ghost function SizeBetween(c: Copy, i: nat, k: nat): nat
    requires Covers(c.order, c.src) && i <= k <= |c.order|
    decreases k - i
  {
    if i == k then 0 else Size(c.src[c.order[i]]) + SizeBetween(c, i + 1, k)
  }

  /** When entry `k` is the first that cannot land, the transfers stop there, with the entries before it in place. */
  lemma {:induction false} StopsAt(c: Copy, local: map<string, Node>, host: string, preserve: bool, i: nat, k: nat)
    requires c.Valid() && Holds(local, c.root, c.src) && c.pushes == 2
    requires i <= k < |c.order| && c.LandsUpTo(k) && !c.Lands(c.order[k])
    ensures
      var (fs', os) := Transfers(ServerEnv(local, c.cwd), c.Progress(i), Jobs(c, host, preserve)[i..], true);
      fs' == c.Progress(k) && StoppedAfter(os, k - i) && ByteSum(os) == SizeBetween(c, i, k)
    decreases k - i
  {
    hide ServerEnv, IsTree, IsFs, Target, ParentFirst, Distinct, Copy.Progress, Copy.Lands, Holds, JobsFor, Sent,
         Transfers;
    TransferOne(c, local, host, preserve, i);
    EntryStep(c, local, i);
    if i == k {
      assert ByteSum([Failed]) == 0 by {
        assert [Failed][1..] == [];
      }
    } else {
      StopsAt(c, local, host, preserve, i + 1, k);
      var os := Transfers(ServerEnv(local, c.cwd), c.Progress(i), Jobs(c, host, preserve)[i..], true).1;
      var later := Transfers(ServerEnv(local, c.cwd), c.Progress(i + 1), Jobs(c, host, preserve)[i + 1..], true).1;
      var first := Moved(Stats(Size(c.src[c.order[i]]), 0));
      assert os == [first] + later && os[1..] == later;
      assert os[..k - i] == [first] + later[..k - i - 1];
      GoodAfterGood(first, later[..k - i - 1]);
    }
  }

  // --------------------------------------------------------- without a way to the target

  lemma {:induction false} PostsRefused(local: map<string, Node>, cwd: Path, fs: Fs, jobs: seq<Job>)
    requires forall job, open :: job in jobs ==> SetPermissions(fs, cwd, job.destination.filename, open).Err?
    ensures
      var (fs', ps) := Posts(ServerEnv(local, cwd), fs, jobs);
      fs' == fs && |ps| == |jobs| && forall i :: 0 <= i < |ps| ==> ps[i] == Failed
    decreases |jobs|
  {
    hide ServerEnv, Request, SetPermissions, MakeDirectory, PutFile;
    if jobs == [] {
    } else {
      RequestIsSend(local, cwd, fs, jobs[0], Post);
      PostsRefused(local, cwd, fs, jobs[1..]);
    }
  }

  lemma {:induction false} KeptAreJobs(jobs: seq<Job>, job: Job)
    requires job in KeptReversed(jobs)
    ensures job in jobs
  {
    if job != jobs[|jobs| - 1] {
      KeptAreJobs(jobs[..|jobs| - 1], job);
    }
  }

  lemma TransfersRefused(c: Copy, local: map<string, Node>, host: string, preserve: bool)
    requires c.Given() && !c.Valid() && c.order != []
    ensures Transfers(ServerEnv(local, c.cwd), c.fs, Jobs(c, host, preserve), true) == (c.fs, [Failed])
  {
    hide ServerEnv, IsTree, IsFs, Target, ParentFirst, Distinct, JobsFor, MakeDirectory, PutFile, SetPermissions,
         DestinationOf;
    if c.stem == "" {
      NoStemIsValid(c);
    }
    FirstIsRoot(c);
    NoTargetRefuses(c.fs, c.cwd, c.stem);
    TransferOne(c, local, host, preserve, 0);
    assert Jobs(c, host, preserve)[0..] == Jobs(c, host, preserve);
  }

  lemma NoStemIsValid(c: Copy)
    requires c.Given() && c.stem == ""
    ensures c.Valid()
  {
    assert DropTrailing([]) == [];
  }

  lemma JobIsRefused(c: Copy, host: string, preserve: bool, job: Job, open: bool)
    requires c.Given() && !c.Valid() && job in Jobs(c, host, preserve)
    ensures SetPermissions(c.fs, c.cwd, job.destination.filename, open).Err?
  {
    hide IsFs, Target, ParentFirst, Distinct, SetPermissions, DestinationOf, IsTree;
    var i :| 0 <= i < |c.order| && Jobs(c, host, preserve)[i] == job;
    assert c.order[i] in c.src;
    EntryIsNamed(c.src, c.order[i]);
    if c.stem == "" {
      NoStemIsValid(c);
    }
    NoTargetNoPermissions(c.fs, c.cwd, c.stem, c.order[i], open);
  }

  /** When the destination leads nowhere, a run fails without changing anything. */
  lemma NowhereToGo(c: Copy, local: map<string, Node>, host: string, preserve: bool)
    requires c.Given() && !c.Valid() && c.order != []
    ensures Run(ServerEnv(local, c.cwd), c.fs, Jobs(c, host, preserve)) == (c.fs, Some((false, Stats(0, 0))))
  {
    var jobs := Jobs(c, host, preserve);
    hide ServerEnv, Transfers, Posts, Copy.Given, Copy.Valid, SetPermissions, KeptReversed;
    JobsAreRemote(c, host, preserve);
    TransfersRefused(c, local, host, preserve);
    forall job, open | job in PostJobs(jobs) ensures SetPermissions(c.fs, c.cwd, job.destination.filename, open).Err? {
      KeptAreJobs(jobs, job);
      JobIsRefused(c, host, preserve, job, open);
    }
    PostsRefused(local, c.cwd, c.fs, PostJobs(jobs));
    assert Total([Failed]) == Stats(0, 0) by {
      TotalOfNone();
      TotalStep([], Failed);
      assert [] + [Failed] == [Failed];
    }
  }

  lemma JobsAreRemote(c: Copy, host: string, preserve: bool)
    requires c.Given() && c.order != []
    ensures MainLoop.Remote(Jobs(c, host, preserve))
  {
    hide IsTree, IsFs, Target, ParentFirst, Distinct;
  }

  // --------------------------------------------------------------------- every run

  lemma SendKeepsKinds(local: map<string, Node>, cwd: Path, fs: Fs, job: Job, phase: Phase)
    ensures SameKinds(fs, Request(ServerEnv(local, cwd), fs, job, phase).0)
  {
    hide ServerEnv, Request, MakeDirectory, PutFile, FileName, Find;
    RequestIsSend(local, cwd, fs, job, phase);
    var source := job.source.filename;
    RequestsGrow(fs, cwd, job.destination.filename, FileName(source).GetOr(""),
                 if source in local && local[source].File? then local[source].content else []);
  }

  lemma {:induction false} TransfersKeepKinds(local: map<string, Node>, cwd: Path, fs: Fs, jobs: seq<Job>)
    ensures
      var (fs', os) := Transfers(ServerEnv(local, cwd), fs, jobs, true);
      SameKinds(fs, fs') && NoStream !in os
    decreases |jobs|
  {
    hide ServerEnv, Request, Send;
    if jobs == [] {
    } else {
      RequestIsSend(local, cwd, fs, jobs[0], Transfer);
      SendKeepsKinds(local, cwd, fs, jobs[0], Transfer);
      TransfersKeepKinds(local, cwd, Request(ServerEnv(local, cwd), fs, jobs[0], Transfer).0, jobs[1..]);
    }
  }

  lemma {:induction false} PostsKeepKinds(local: map<string, Node>, cwd: Path, fs: Fs, jobs: seq<Job>)
    ensures
      var (fs', ps) := Posts(ServerEnv(local, cwd), fs, jobs);
      SameKinds(fs, fs') && NoStream !in ps
    decreases |jobs|
  {
    hide ServerEnv, Request, Send;
    if jobs == [] {
    } else {
      RequestIsSend(local, cwd, fs, jobs[0], Post);
      SendKeepsKinds(local, cwd, fs, jobs[0], Post);
      PostsKeepKinds(local, cwd, Request(ServerEnv(local, cwd), fs, jobs[0], Post).0, jobs[1..]);
    }
  }

  /**
   No run of whatever jobs to the remote end, successful or not, removes
   anything or turns a file into a directory or back.
   */
  lemma NothingIsLost(local: map<string, Node>, cwd: Path, fs: Fs, jobs: seq<Job>)
    requires MainLoop.Remote(jobs)
    ensures
      var (fs', r) := Run(ServerEnv(local, cwd), fs, jobs);
      r.Some? && SameKinds(fs, fs')
  {
    hide ServerEnv, Transfers, Posts, PostJobs, Total;
    var env := ServerEnv(local, cwd);
    TransfersKeepKinds(local, cwd, fs, jobs);
    PostsKeepKinds(local, cwd, Transfers(env, fs, jobs, true).0, PostJobs(jobs));
  }
}
