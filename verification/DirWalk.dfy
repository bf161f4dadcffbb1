/** From the sources and the destination of the command line to the list of jobs, walking local directories. */
module DirWalk {
  import opened Wrappers
  import opened Paths
  import opened MainLoop

  datatype Error = DestinationNotRemote | WalkFailed | NotOneRemote | NoFileName | TooFewPaths | ManyUsers | ManyHosts

  /**
   What the directory walker yields: an entry, with its path text if it is
   Unicode, or an error. The walker follows links and visits a directory before
   what is in it.
   */
  datatype WalkItem = Entry(path: Option<string>, depth: nat, isDir: bool) | Problem(permissionDenied: bool)

  datatype Listed = Listed(path: string, isDir: bool, leaf: string)

  // --------------------------------------------------------------- specification

  /** The path relative to the root of the walk. */
  function Leaf(path: string, depth: nat): string
    requires depth <= |Components(path)|
  {
    var c := Components(path);
    Join(c[|c| - depth..])
  }

  /** The walker never reports an entry deeper than its path is long. */
  ghost predicate Sound(walk: seq<WalkItem>) {
    forall i :: 0 <= i < |walk| && walk[i].Entry? && walk[i].path.Some? ==>
      walk[i].depth <= |Components(walk[i].path.value)|
  }

  predicate Skipped(item: WalkItem, minDepth: nat) {
    item.Entry? && item.depth < minDepth
  }

  /** The entries that can be listed, and whether that is all of them; any error but a denied permission is fatal. */
  function Listing(walk: seq<WalkItem>, minDepth: nat): Result<(bool, seq<Listed>), Error>
    requires Sound(walk)
  {
    if walk == [] then Ok((true, []))
    else
      var item := walk[|walk| - 1];
      assert forall i :: 0 <= i < |walk| - 1 ==> walk[..|walk| - 1][i] == walk[i];
      var (ok, listed) :- Listing(walk[..|walk| - 1], minDepth);
      if Skipped(item, minDepth) then Ok((ok, listed))
      else
        match item
        case Problem(true) => Ok((false, listed))
        case Problem(false) => Err(WalkFailed)
        case Entry(None, _, _) => Ok((false, listed))
        case Entry(Some(path), depth, isDir) => Ok((ok, listed + [Listed(path, isDir, Leaf(path, depth))]))
  }

  /** The last part of a path that is not empty. */
  function LastPart(parts: seq<string>): Option<string> {
    if parts == [] then None
    else if Last(parts) != "" then Some(Last(parts))
    else LastPart(Init(parts))
  }

  /** Into a destination with a final separator, the source directory itself goes; otherwise its contents do. */
  function DestinationStem(source: string, destination: string): string {
    if EndsWithSeparator(destination) then destination + LastPart(Split(source)).GetOr("") else destination
  }

  function EntryJob(source: FileSpec, destination: FileSpec, preserve: bool, stem: string, e: Listed): Job {
    Job(FileSpec(source.host, e.path), FileSpec(destination.host, JoinRemote(stem, e.leaf)), preserve, e.isDir)
  }

  function EntryJobs(source: FileSpec, destination: FileSpec, preserve: bool, stem: string, es: seq<Listed>)
    : (jobs: seq<Job>)
    ensures |jobs| == |es|
    ensures forall i :: 0 <= i < |es| ==> jobs[i] == EntryJob(source, destination, preserve, stem, es[i])
  {
    seq(|es|, i requires 0 <= i < |es| => EntryJob(source, destination, preserve, stem, es[i]))
  }

  /** The jobs for one local source, and whether nothing was left out. */
  function SourceJobs(source: FileSpec, destination: FileSpec, preserve: bool, walk: seq<WalkItem>)
    : Result<(bool, seq<Job>), Error>
    requires Sound(walk)
  {
    if destination.host.None? then Err(DestinationNotRemote)
    else
      var (ok, listed) :- Listing(walk, if destination.filename == "" then 1 else 0);
      if listed != [] && source.host.Some? then Err(NotOneRemote)
      else
        Ok((ok, EntryJobs(source, destination, preserve, DestinationStem(source.filename, destination.filename),
          listed)))
  }

  // ------------------------------------------------------------------- the loops

  method ContentsOf(walk: seq<WalkItem>, skipRoot: bool) returns (r: Result<(bool, seq<Listed>), Error>)
    requires Sound(walk)
    ensures r == Listing(walk, if skipRoot then 1 else 0)
  {
    var minDepth := if skipRoot then 1 else 0;
    var output: seq<Listed> := [];
    var success := true;
    assert walk[..|walk|] == walk;
    for i := 0 to |walk|
      invariant Listing(walk[..i], minDepth) == Ok((success, output))
      invariant forall j :: 0 <= j <= |walk| ==> Sound(walk[..j])
    {
      ListingStep(walk, minDepth, i);
      var item := walk[i];
      if !Skipped(item, minDepth) {
        match item {
          case Entry(path, depth, isDir) =>
            match path {
              case Some(text) => output := output + [Listed(text, isDir, Leaf(text, depth))];
              case None => success := false;
            }
          case Problem(denied) =>
            if !denied {
              ListingFails(walk, minDepth, i + 1);
              return Err(WalkFailed);
            }
            success := false;
        }
      }
    }
    r := Ok((success, output));
  }

  lemma ListingStep(walk: seq<WalkItem>, minDepth: nat, i: nat)
    requires Sound(walk) && i < |walk|
    ensures walk[..i + 1] != [] && walk[..i + 1][|walk[..i + 1]| - 1] == walk[i] && walk[..i + 1][..i] == walk[..i]
  {
  }

  lemma {:induction false} ListingFails(walk: seq<WalkItem>, minDepth: nat, i: nat)
    requires Sound(walk) && i <= |walk| && Listing(walk[..i], minDepth).Err?
    ensures Listing(walk, minDepth) == Listing(walk[..i], minDepth)
    decreases |walk|
  {
    if i == |walk| {
      assert walk[..i] == walk;
    } else {
      var init := walk[..|walk| - 1];
      assert forall j :: 0 <= j < |init| ==> init[j] == walk[j];
      assert init[..i] == walk[..i];
      ListingFails(init, minDepth, i);
    }
  }

  method StemOf(source: string, destination: string) returns (stem: string)
    ensures stem == DestinationStem(source, destination)
  {
    stem := destination;
    if EndsWithSeparator(destination) {
      var parts := Split(source);
      var i := |parts|;
      assert parts[..i] == parts;
      while i > 0 && parts[i - 1] == ""
        invariant 0 <= i <= |parts|
        invariant LastPart(parts[..i]) == LastPart(parts)
      {
        i := i - 1;
        assert parts[..i + 1][..i] == parts[..i];
      }
      if i > 0 {
        stem := stem + parts[i - 1];
      }
    }
  }

  method RecurseLocalSource(source: FileSpec, destination: FileSpec, preserve: bool, walk: seq<WalkItem>,
                            before: seq<Job>)
    returns (r: Result<bool, Error>, output: seq<Job>)
    requires Sound(walk)
    ensures
      match SourceJobs(source, destination, preserve, walk)
      case Ok((ok, jobs)) => r == Ok(ok) && output == before + jobs
      case Err(e) => r == Err(e)
  {
    output := before;
    if destination.host.None? {
      return Err(DestinationNotRemote), output;
    }
    var stem := StemOf(source.filename, destination.filename);
    var contents := ContentsOf(walk, destination.filename == "");
    if contents.Err? {
      return Err(contents.error), output;
    }
    var (success, listed) := contents.value;
    ghost var jobs := EntryJobs(source, destination, preserve, stem, listed);
    for i := 0 to |listed|
      invariant output == before + jobs[..i]
      invariant i > 0 ==> source.host.None?
    {
      var e := listed[i];
      if source.host.Some? {
        return Err(NotOneRemote), output;
      }
      output := output + [EntryJob(source, destination, preserve, stem, e)];
    }
    r := Ok(success);
  }

  // ----------------------------------------------------------------- completeness

  /** The walker's items that a complete listing consists of. */
  ghost predicate Complete(walk: seq<WalkItem>, minDepth: nat) {
    forall i :: 0 <= i < |walk| && !Skipped(walk[i], minDepth) ==> walk[i].Entry? && walk[i].path.Some?
  }

  function Kept(walk: seq<WalkItem>, minDepth: nat): seq<WalkItem> {
    if walk == [] then []
    else Kept(walk[..|walk| - 1], minDepth) + if Skipped(walk[|walk| - 1], minDepth) then [] else [walk[|walk| - 1]]
  }

  /**
   Nothing is lost in silence: success means that every entry became a line of
   the listing, in the order of the walk.
   */
  lemma {:induction false} ListingIsComplete(walk: seq<WalkItem>, minDepth: nat)
    requires Sound(walk)
    ensures
      var r := Listing(walk, minDepth);
      && (r.Ok? && r.value.0 <==> Complete(walk, minDepth))
      && (r.Ok? && r.value.0 ==>
            var kept := Kept(walk, minDepth);
            && |r.value.1| == |kept|
            && forall i :: 0 <= i < |kept| ==>
                 && kept[i].Entry? && kept[i].path == Some(r.value.1[i].path) && kept[i].isDir == r.value.1[i].isDir
                 && kept[i].depth <= |Components(r.value.1[i].path)|
                 && r.value.1[i].leaf == Leaf(r.value.1[i].path, kept[i].depth))
      && (r.Err? <==> exists i :: 0 <= i < |walk| && walk[i] == Problem(false))
  {
    hide Leaf, Components;
    if walk == [] {
    } else {
      var init, item := walk[..|walk| - 1], walk[|walk| - 1];
      assert forall j :: 0 <= j < |init| ==> init[j] == walk[j];
      ListingIsComplete(init, minDepth);
      assert Complete(walk, minDepth) <==>
             Complete(init, minDepth) && (Skipped(item, minDepth) || (item.Entry? && item.path.Some?));
    }
  }

  /** Does the walk have anything to list? */
  ghost predicate Listable(walk: seq<WalkItem>, minDepth: nat) {
    exists i :: 0 <= i < |walk| && !Skipped(walk[i], minDepth) && walk[i].Entry? && walk[i].path.Some?
  }

  lemma {:induction false} ListsNothingIff(walk: seq<WalkItem>, minDepth: nat)
    requires Sound(walk) && Listing(walk, minDepth).Ok?
    ensures Listing(walk, minDepth).value.1 == [] <==> !Listable(walk, minDepth)
  {
    hide Leaf, Components;
    if walk == [] {
    } else {
      var init := walk[..|walk| - 1];
      assert forall j :: 0 <= j < |init| ==> init[j] == walk[j];
      ListsNothingIff(init, minDepth);
      assert Listable(walk, minDepth) <==>
             Listable(init, minDepth) || (!Skipped(walk[|walk| - 1], minDepth) && walk[|walk| - 1].Entry? &&
               walk[|walk| - 1].path.Some?);
    }
  }
}
