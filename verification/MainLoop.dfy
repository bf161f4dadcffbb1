/**
 The client's transfer loop: every job in turn until one fails, then the
 permissions of the directories in reverse. What a request does, and whether it
 succeeds, is up to the environment.
 */
module MainLoop {
  import opened Wrappers
  import opened Numbers

  datatype FileSpec = FileSpec(host: Option<string>, filename: string)

  datatype Job = Job(source: FileSpec, destination: FileSpec, preserve: bool, directory: bool) {
    /** The directory jobs that the permission pass visits. */
    predicate Kept() {
      directory && preserve
    }
  }

  datatype Phase = Transfer | Post

  datatype Stats = Stats(bytes: nat, peak: nat)

  datatype Entity = IsFile | IsOther | Absent

  datatype Creation = Created | Existed | NotCreated

  /** Opening a stream, running a request on it, and the local file system; each may change the state. */
  datatype Env<!S> = Env(
    open: S -> (S, bool),
    run: (S, Job, Phase) -> (S, Option<Stats>),
    stat: (S, string) -> Entity,
    createAll: (S, string) -> (S, Creation))

  /** What became of one job. A stream that cannot be opened is fatal. */
  datatype Outcome = Moved(stats: Stats) | LocalDir | Failed | NoStream {
    predicate Good() {
      Moved? || LocalDir?
    }
  }

  // ---------------------------------------------------------------- specification

  function Request<S>(env: Env<S>, s: S, job: Job, phase: Phase): (S, Outcome) {
    var (s, ok) := env.open(s);
    if !ok then (s, NoStream)
    else
      var (s, r) := env.run(s, job, phase);
      (s, match r case Some(stats) => Moved(stats) case None => Failed)
  }

  function MakeLocalDir<S>(env: Env<S>, s: S, name: string): (S, Outcome) {
    match env.stat(s, name)
    case IsFile => (s, Failed)
    case IsOther => (s, LocalDir)
    case Absent =>
      var (s, c) := env.createAll(s, name);
      (s, if c == NotCreated then Failed else LocalDir)
  }

  function Perform<S>(env: Env<S>, s: S, job: Job, remote: bool): (S, Outcome) {
    if !remote && job.directory then MakeLocalDir(env, s, job.destination.filename) else Request(env, s, job, Transfer)
  }

  /** The outcomes of the jobs, up to the first that is not good. */
  function Transfers<S>(env: Env<S>, s: S, jobs: seq<Job>, remote: bool): (S, seq<Outcome>) {
    if jobs == [] then (s, [])
    else
      var (s, o) := Perform(env, s, jobs[0], remote);
      if !o.Good() then (s, [o])
      else
        var (s, os) := Transfers(env, s, jobs[1..], remote);
        (s, [o] + os)
  }

  /** The outcomes of the permission pass, which only a missing stream stops. */
  function Posts<S>(env: Env<S>, s: S, jobs: seq<Job>): (S, seq<Outcome>) {
    if jobs == [] then (s, [])
    else
      var (s, o) := Request(env, s, jobs[0], Post);
      if o.NoStream? then (s, [o])
      else
        var (s, os) := Posts(env, s, jobs[1..]);
        (s, [o] + os)
  }

  /** The kept directories, last first. */
  function KeptReversed(jobs: seq<Job>): seq<Job> {
    if jobs == [] then []
    else (if jobs[|jobs| - 1].Kept() then [jobs[|jobs| - 1]] else []) + KeptReversed(jobs[..|jobs| - 1])
  }

  function PostJobs(jobs: seq<Job>): seq<Job> {
    if |jobs| > 1 then KeptReversed(jobs) else []
  }

  function Total(os: seq<Outcome>): Stats {
    if os == [] then Stats(0, 0)
    else
      var t := Total(os[..|os| - 1]);
      match os[|os| - 1]
      case Moved(stats) => Stats(t.bytes + stats.bytes, Max(t.peak, stats.peak))
      case _ => t
  }

  predicate Remote(jobs: seq<Job>) {
    jobs != [] && jobs[0].destination.host.Some?
  }

  /** `None` is the fatal error. */
  function Run<S>(env: Env<S>, s: S, jobs: seq<Job>): (S, Option<(bool, Stats)>) {
    var (s, os) := Transfers(env, s, jobs, Remote(jobs));
    if NoStream in os then (s, None)
    else
      var (s, ps) := Posts(env, s, PostJobs(jobs));
      if NoStream in ps then (s, None) else (s, Some((Failed !in os && Failed !in ps, Total(os))))
  }

  // --------------------------------------------------------------------- the loop

  /** One step more of the transfers is one step less to go. */
  lemma TransfersStep<S>(env: Env<S>, s: S, jobs: seq<Job>, remote: bool, i: nat, os: seq<Outcome>)
    requires i < |jobs|
    ensures
      var (s', o) := Perform(env, s, jobs[i], remote);
      var all := Transfers(env, s, jobs[i..], remote);
      var later := Transfers(env, s', jobs[i + 1..], remote);
      if o.Good() then all.0 == later.0 && os + all.1 == (os + [o]) + later.1 else all == (s', [o])
  {
    hide Perform;
    assert jobs[i..][0] == jobs[i] && jobs[i..][1..] == jobs[i + 1..];
  }

  lemma PerformIs<S>(env: Env<S>, s: S, job: Job, remote: bool)
    ensures Perform(env, s, job, remote) ==
            if !remote && job.directory then MakeLocalDir(env, s, job.destination.filename)
              else Request(env, s, job, Transfer)
  {
  }

  lemma TotalStep(os: seq<Outcome>, o: Outcome)
    ensures Total(os + [o]) ==
            match o case Moved(stats) => Stats(Total(os).bytes + stats.bytes, Max(Total(os).peak, stats.peak))
              case _ => Total(os)
  {
    assert (os + [o])[..|os|] == os;
  }

  method TransferPhase<S>(env: Env<S>, start: S, jobs: seq<Job>)
    returns (s: S, success: bool, stats: Stats, fatal: bool)
    ensures
      var (s', os) := Transfers(env, start, jobs, Remote(jobs));
      s == s' && fatal == (NoStream in os) && (!fatal ==> success == (Failed !in os) && stats == Total(os))
  {
    hide Transfers, Total, Perform;
    ghost var (s', os') := Transfers(env, start, jobs, Remote(jobs));
    s, success, stats, fatal := start, true, Stats(0, 0), false;
    var remote := Remote(jobs);
    ghost var os: seq<Outcome> := [];
    assert Total([]) == Stats(0, 0) by { TotalOfNone(); }
    assert jobs[0..] == jobs;
    var i := 0;
    while i < |jobs|
      invariant 0 <= i <= |jobs|
      invariant
        var (s', os') := Transfers(env, s, jobs[i..], remote);
        Transfers(env, start, jobs, remote).0 == s' && Transfers(env, start, jobs, remote).1 == os + os'
      invariant forall o :: o in os ==> o.Good()
      invariant success && !fatal && stats == Total(os)
    {
      var job := jobs[i];
      TransfersStep(env, s, jobs, remote, i, os);
      ghost var o := Perform(env, s, job, remote).1;
      PerformIs(env, s, job, remote);
      TotalStep(os, o);
      assert !o.Good() ==> os' == os + [o];
      if !remote && job.directory {
        var name := job.destination.filename;
        var meta := env.stat(s, name);
        if meta == IsFile {
          success := false;
          break;
        }
        if meta == Absent {
          var created := env.createAll(s, name);
          s := created.0;
          if created.1 == NotCreated {
            success := false;
            break;
          }
        }
      } else {
        var stream := env.open(s);
        s := stream.0;
        if !stream.1 {
          fatal := true;
          return;
        }
        var result := env.run(s, job, Transfer);
        s := result.0;
        match result.1 {
          case Some(moved) =>
            stats := Stats(stats.bytes + moved.bytes, Max(stats.peak, moved.peak));
          case None =>
            success := false;
            break;
        }
      }
      os := os + [o];
      i := i + 1;
    }
    if i == |jobs| {
      TransfersOfNone(env, s, remote);
      assert jobs[i..] == [];
      assert os' == os;
    }
  }

  lemma TransfersOfNone<S>(env: Env<S>, s: S, remote: bool)
    ensures Transfers(env, s, [], remote) == (s, [])
  {
  }

  lemma TotalOfNone()
    ensures Total([]) == Stats(0, 0)
  {
  }

  lemma PostsStep<S>(env: Env<S>, s: S, jobs: seq<Job>, i: nat, ps: seq<Outcome>)
    requires i < |jobs|
    ensures
      var all := Posts(env, s, KeptReversed(jobs[..i + 1]));
      if !jobs[i].Kept() then all == Posts(env, s, KeptReversed(jobs[..i]))
      else
        var (s', o) := Request(env, s, jobs[i], Post);
        var later := Posts(env, s', KeptReversed(jobs[..i]));
        if o.NoStream? then all == (s', [o]) else all.0 == later.0 && ps + all.1 == (ps + [o]) + later.1
  {
    hide Request;
    assert jobs[..i + 1][..i] == jobs[..i];
    if jobs[i].Kept() {
      var kept := KeptReversed(jobs[..i + 1]);
      assert kept[0] == jobs[i] && kept[1..] == KeptReversed(jobs[..i]);
    } else {
      assert KeptReversed(jobs[..i + 1]) == KeptReversed(jobs[..i]);
    }
  }

  method PostPhase<S>(env: Env<S>, start: S, jobs: seq<Job>) returns (s: S, success: bool, fatal: bool)
    ensures
      var (s', ps) := Posts(env, start, PostJobs(jobs));
      s == s' && fatal == (NoStream in ps) && (!fatal ==> success == (Failed !in ps))
  {
    hide Posts, KeptReversed;
    ghost var (s', ps') := Posts(env, start, PostJobs(jobs));
    ghost var ps: seq<Outcome> := [];
    s, success, fatal := start, true, false;
    PostsOfNone(env, s);
    if |jobs| > 1 {
      var i := |jobs|;
      assert jobs[..i] == jobs;
      while i > 0
        invariant 0 <= i <= |jobs|
        invariant
          var left := Posts(env, s, KeptReversed(jobs[..i]));
          left.0 == s' && ps' == ps + left.1
        invariant NoStream !in ps && success == (Failed !in ps) && !fatal
      {
        i := i - 1;
        var job := jobs[i];
        PostsStep(env, s, jobs, i, ps);
        if job.Kept() {
          ghost var o := Request(env, s, job, Post).1;
          assert o.NoStream? ==> ps' == ps + [o];
          var stream := env.open(s);
          s := stream.0;
          if !stream.1 {
            fatal := true;
            return;
          }
          var result := env.run(s, job, Post);
          s := result.0;
          if result.1.None? {
            success := false;
          }
          ps := ps + [o];
        }
      }
      assert jobs[..0] == [];
      PostsOfNone(env, s);
      assert ps' == ps;
    }
  }

  lemma PostsOfNone<S>(env: Env<S>, s: S)
    ensures Posts(env, s, []) == (s, []) && KeptReversed([]) == []
  {
  }

  method ProcessFileTransfers<S>(env: Env<S>, start: S, jobs: seq<Job>) returns (s: S, r: Option<(bool, Stats)>)
    ensures (s, r) == Run(env, start, jobs)
  {
    hide Transfers, Posts, PostJobs, Total;
    var success, stats, fatal;
    s, success, stats, fatal := TransferPhase(env, start, jobs);
    if fatal {
      return s, None;
    }
    var postSuccess;
    s, postSuccess, fatal := PostPhase(env, s, jobs);
    if fatal {
      return s, None;
    }
    r := Some((success && postSuccess, stats));
  }

  // ------------------------------------------------------------------- accounting

  /** Only the last outcome can be bad, and jobs are left out only after a bad one. */
  lemma {:induction false} StopsAtFirstFailure<S>(env: Env<S>, s: S, jobs: seq<Job>, remote: bool)
    ensures
      var os := Transfers(env, s, jobs, remote).1;
      && |os| <= |jobs|
      && (forall i :: 0 <= i < |os| - 1 ==> os[i].Good())
      && (|os| < |jobs| ==> os != [] && !os[|os| - 1].Good())
  {
    hide Perform;
    if jobs == [] {
    } else {
      var (s', o) := Perform(env, s, jobs[0], remote);
      if o.Good() {
        StopsAtFirstFailure(env, s', jobs[1..], remote);
      }
    }
  }

  function ByteSum(os: seq<Outcome>): nat {
    if os == [] then 0 else (if os[0].Moved? then os[0].stats.bytes else 0) + ByteSum(os[1..])
  }

  lemma {:induction false} ByteSumAppend(os: seq<Outcome>, o: Outcome)
    ensures ByteSum(os + [o]) == ByteSum(os) + if o.Moved? then o.stats.bytes else 0
  {
    if os == [] {
      assert (os + [o])[1..] == [];
    } else {
      assert (os + [o])[1..] == os[1..] + [o];
      ByteSumAppend(os[1..], o);
    }
  }

  ghost predicate IsPeak(peak: nat, os: seq<Outcome>) {
    && (forall i :: 0 <= i < |os| && os[i].Moved? ==> os[i].stats.peak <= peak)
    && (peak == 0 || exists i :: 0 <= i < |os| && os[i].Moved? && os[i].stats.peak == peak)
  }

  /** The statistics are the sum and the maximum over the outcomes. */
  lemma {:induction false} TotalIsSumAndPeak(os: seq<Outcome>)
    ensures Total(os).bytes == ByteSum(os) && IsPeak(Total(os).peak, os)
  {
    if os == [] {
    } else {
      var init, o := os[..|os| - 1], os[|os| - 1];
      TotalIsSumAndPeak(init);
      ByteSumAppend(init, o);
      assert os == init + [o];
      assert forall i :: 0 <= i < |init| ==> os[i] == init[i];
    }
  }

  ghost predicate AllMoved(os: seq<Outcome>) {
    forall i :: 0 <= i < |os| ==> os[i].Moved?
  }

  lemma {:induction false} PostsAreMovedOrBad<S>(env: Env<S>, s: S, jobs: seq<Job>)
    ensures
      var ps := Posts(env, s, jobs).1;
      && |ps| <= |jobs| && (NoStream !in ps ==> |ps| == |jobs|)
      && forall i :: 0 <= i < |ps| ==> !ps[i].LocalDir?
  {
    hide Request;
    if jobs == [] {
    } else {
      var (s', o) := Request(env, s, jobs[0], Post);
      assert !o.LocalDir? by { RequestIsNotLocal(env, s, jobs[0], Post); }
      if !o.NoStream? {
        PostsAreMovedOrBad(env, s', jobs[1..]);
        var ps := Posts(env, s', jobs[1..]).1;
        assert NoStream in ps ==> NoStream in [o] + ps;
      }
    }
  }

  lemma RequestIsNotLocal<S>(env: Env<S>, s: S, job: Job, phase: Phase)
    ensures !Request(env, s, job, phase).1.LocalDir?
  {
  }

  /**
   No silent loss: the loop reports success exactly when every job was carried
   out and every kept directory was visited, all without failure; then, and
   whenever there is no fatal error, the statistics are those of the jobs before
   the first failure.
   */
  lemma SuccessMeansAllDone<S>(env: Env<S>, s: S, jobs: seq<Job>)
    ensures
      var (s1, os) := Transfers(env, s, jobs, Remote(jobs));
      var (s2, ps) := Posts(env, s1, PostJobs(jobs));
      var r := Run(env, s, jobs).1;
      && ((r.Some? && r.value.0) <==>
            && |os| == |jobs| && (forall i :: 0 <= i < |os| ==> os[i].Good())
            && |ps| == |PostJobs(jobs)| && AllMoved(ps))
      && (r.Some? ==> r.value.1.bytes == ByteSum(os) && IsPeak(r.value.1.peak, os))
      && (r.Some? ==> |ps| == |PostJobs(jobs)|)
  {
    hide Transfers, Posts, PostJobs, Total, ByteSum, IsPeak;
    var (s1, os) := Transfers(env, s, jobs, Remote(jobs));
    var (s2, ps) := Posts(env, s1, PostJobs(jobs));
    StopsAtFirstFailure(env, s, jobs, Remote(jobs));
    PostsAreMovedOrBad(env, s1, PostJobs(jobs));
    TotalIsSumAndPeak(os);
    if Failed in os || NoStream in os {
      var i :| 0 <= i < |os| && !os[i].Good();
    }
    if Failed in ps || NoStream in ps {
      var i :| 0 <= i < |ps| && !ps[i].Moved?;
    }
    if Failed !in os && NoStream !in os {
      assert forall i :: 0 <= i < |os| ==> os[i] in os;
    }
    if Failed !in ps && NoStream !in ps {
      assert forall i :: 0 <= i < |ps| ==> ps[i] in ps;
    }
  }

  // --------------------------------------------------------------- requests made

  /** An environment that keeps the requests it gets, and answers each as it likes. */
  function Recorder(answer: (seq<(Job, Phase)>, Job, Phase) -> Option<Stats>): Env<seq<(Job, Phase)>> {
    Env(log => (log, true),
        (log, job, phase) => (log + [(job, phase)], answer(log, job, phase)),
        (log, name) => Absent,
        (log, name) => (log, NotCreated))
  }

  function Tagged(jobs: seq<Job>, phase: Phase): (tagged: seq<(Job, Phase)>)
    ensures |tagged| == |jobs| && forall i :: 0 <= i < |jobs| ==> tagged[i] == (jobs[i], phase)
  {
    if jobs == [] then [] else [(jobs[0], phase)] + Tagged(jobs[1..], phase)
  }

  lemma TaggedStep(jobs: seq<Job>, phase: Phase)
    requires jobs != []
    ensures Tagged(jobs, phase) == [(jobs[0], phase)] + Tagged(jobs[1..], phase)
  {
  }

  lemma RequestRecorded(answer: (seq<(Job, Phase)>, Job, Phase) -> Option<Stats>,
                        log: seq<(Job, Phase)>, job: Job, phase: Phase)
    ensures
      var (log', o) := Request(Recorder(answer), log, job, phase);
      log' == log + [(job, phase)] && o == match answer(log, job, phase) case Some(stats) => Moved(stats)
        case None => Failed
  {
  }

  lemma {:induction false} TransfersRecorded(answer: (seq<(Job, Phase)>, Job, Phase) -> Option<Stats>,
                                             log: seq<(Job, Phase)>, jobs: seq<Job>)
    ensures
      var (log', os) := Transfers(Recorder(answer), log, jobs, true);
      NoStream !in os && |os| <= |jobs| && log' == log + Tagged(jobs[..|os|], Transfer)
    decreases jobs
  {
    hide Request, Recorder, Tagged;
    if jobs == [] {
    } else {
      RequestRecorded(answer, log, jobs[0], Transfer);
      var (next, o) := Perform(Recorder(answer), log, jobs[0], true);
      if o.Good() {
        TransfersRecorded(answer, next, jobs[1..]);
        var os := Transfers(Recorder(answer), next, jobs[1..], true).1;
        assert jobs[..|os| + 1][1..] == jobs[1..][..|os|];
      }
    }
  }

  lemma {:induction false} PostsRecorded(answer: (seq<(Job, Phase)>, Job, Phase) -> Option<Stats>,
                                         log: seq<(Job, Phase)>, jobs: seq<Job>)
    ensures
      var (log', ps) := Posts(Recorder(answer), log, jobs);
      NoStream !in ps && log' == log + Tagged(jobs, Post)
    decreases jobs
  {
    if jobs == [] {
    } else {
      hide Request, Recorder, Tagged;
      var next := log + [(jobs[0], Post)];
      RequestRecorded(answer, log, jobs[0], Post);
      PostsRecorded(answer, next, jobs[1..]);
      TaggedStep(jobs, Post);
      assert log + ([(jobs[0], Post)] + Tagged(jobs[1..], Post)) == next + Tagged(jobs[1..], Post);
    }
  }

  /**
   When the streams open, the requests of a run to a remote destination are the
   jobs up to and including the first that fails, then all of the permission
   pass, whether or not a job failed.
   */
  lemma RequestsMade(answer: (seq<(Job, Phase)>, Job, Phase) -> Option<Stats>, jobs: seq<Job>)
    requires Remote(jobs)
    ensures
      var os := Transfers(Recorder(answer), [], jobs, true).1;
      var (log, r) := Run(Recorder(answer), [], jobs);
      && r.Some?
      && |os| <= |jobs|
      && log == Tagged(jobs[..|os|], Transfer) + Tagged(PostJobs(jobs), Post)
      && forall i :: 0 <= i < |os| ==> os[i].Good() || i == |os| - 1
  {
    hide Transfers, Posts, PostJobs, Total, Tagged;
    var (log, os) := Transfers(Recorder(answer), [], jobs, true);
    TransfersRecorded(answer, [], jobs);
    PostsRecorded(answer, log, PostJobs(jobs));
    StopsAtFirstFailure(Recorder(answer), [], jobs, true);
  }

  /** The positions that the permission pass visits, in the order of the visits. */
  function KeptIndices(jobs: seq<Job>): seq<nat> {
    if jobs == [] then []
    else (if jobs[|jobs| - 1].Kept() then [|jobs| - 1] else []) + KeptIndices(jobs[..|jobs| - 1])
  }

  lemma {:induction false} NoneKept(jobs: seq<Job>)
    requires forall i :: 0 <= i < |jobs| ==> !jobs[i].Kept()
    ensures KeptReversed(jobs) == []
  {
    if jobs == [] {
    } else {
      NoneKept(jobs[..|jobs| - 1]);
    }
  }

  lemma {:induction false} KeptIndexBelow(jobs: seq<Job>, k: nat)
    requires k < |KeptIndices(jobs)|
    ensures KeptIndices(jobs)[k] < |jobs|
  {
    var skip := if jobs[|jobs| - 1].Kept() then 1 else 0;
    if k >= skip {
      KeptIndexBelow(jobs[..|jobs| - 1], k - skip);
    }
  }

  lemma {:induction false} KeptIndicesDescend(jobs: seq<Job>, k: nat, l: nat)
    requires k < l < |KeptIndices(jobs)|
    ensures KeptIndices(jobs)[k] > KeptIndices(jobs)[l]
  {
    var init := jobs[..|jobs| - 1];
    var skip := if jobs[|jobs| - 1].Kept() then 1 else 0;
    if k >= skip {
      KeptIndicesDescend(init, k - skip, l - skip);
    } else {
      KeptIndexBelow(init, l - skip);
    }
  }

  lemma {:induction false} KeptIndicesAreKept(jobs: seq<Job>, i: nat)
    requires i < |jobs|
    ensures i in KeptIndices(jobs) <==> jobs[i].Kept()
  {
    var init := jobs[..|jobs| - 1];
    if i < |init| {
      KeptIndicesAreKept(init, i);
    } else if i in KeptIndices(init) {
      var k :| 0 <= k < |KeptIndices(init)| && KeptIndices(init)[k] == i;
      KeptIndexBelow(init, k);
    }
  }

  lemma KeptStep(jobs: seq<Job>)
    requires jobs != []
    ensures
      var init, last := jobs[..|jobs| - 1], jobs[|jobs| - 1];
      && KeptReversed(jobs) == (if last.Kept() then [last] else []) + KeptReversed(init)
      && KeptIndices(jobs) == (if last.Kept() then [|jobs| - 1] else []) + KeptIndices(init)
  {
  }

  lemma {:induction false} KeptReversedAt(jobs: seq<Job>, k: nat)
    requires k < |KeptIndices(jobs)|
    ensures |KeptReversed(jobs)| == |KeptIndices(jobs)|
    ensures KeptIndices(jobs)[k] < |jobs| && KeptReversed(jobs)[k] == jobs[KeptIndices(jobs)[k]]
  {
    assert jobs != [];
    hide KeptReversed, KeptIndices, Job.Kept;
    KeptStep(jobs);
    KeptReversedLength(jobs);
    var init, skip := jobs[..|jobs| - 1], if jobs[|jobs| - 1].Kept() then 1 else 0;
    if k >= skip {
      KeptReversedAt(init, k - skip);
    }
  }

  lemma {:induction false} KeptReversedLength(jobs: seq<Job>)
    ensures |KeptReversed(jobs)| == |KeptIndices(jobs)|
  {
    if jobs == [] {
    } else {
      KeptReversedLength(jobs[..|jobs| - 1]);
    }
  }

  /** The permission pass visits every kept directory exactly once, and a later job before an earlier one. */
  lemma KeptReversedVisits(jobs: seq<Job>)
    ensures
      var order := KeptIndices(jobs);
      && |KeptReversed(jobs)| == |order|
      && (forall k :: 0 <= k < |order| ==> order[k] < |jobs| && KeptReversed(jobs)[k] == jobs[order[k]])
      && (forall k, l :: 0 <= k < l < |order| ==> order[k] > order[l])
      && (forall i :: 0 <= i < |jobs| ==> (i in order <==> jobs[i].Kept()))
  {
    hide KeptIndices, KeptReversed, Job.Kept;
    var order := KeptIndices(jobs);
    KeptReversedLength(jobs);
    forall k, l | 0 <= k < l < |order| ensures order[k] > order[l] {
      KeptIndicesDescend(jobs, k, l);
    }
    forall k | 0 <= k < |order| ensures order[k] < |jobs| && KeptReversed(jobs)[k] == jobs[order[k]] {
      KeptReversedAt(jobs, k);
    }
    forall i | 0 <= i < |jobs| ensures i in order <==> jobs[i].Kept() {
      KeptIndicesAreKept(jobs, i);
    }
  }
}
