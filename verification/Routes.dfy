/** Where the text of a path leads, and through which directories, whatever the file system has there. */
module Routes {
  import opened Wrappers
  import opened Paths
  import opened RemoteFs
  import opened RemotePaths

  // ------------------------------------------------------------------- lexical paths

  /** Where the parts of a path lead, if they lead anywhere. */
  function Walk(at: Path, parts: seq<string>): Path
    decreases |parts|
  {
    if parts == [] then at else Walk(Follow(at, parts[0]), parts[1..])
  }

  /** The directories that are searched on the way. */
  function Route(at: Path, parts: seq<string>): set<Path>
    decreases |parts|
  {
    if parts == [] then {}
    else (if parts[0] == "" then {} else {at}) + Route(Follow(at, parts[0]), parts[1..])
  }

  ghost predicate Open(fs: Fs, ds: set<Path>) {
    forall d :: d in ds ==> d in fs && fs[d] == Dir(true)
  }

  lemma {:induction false} LookIsWalk(fs: Fs, at: Path, parts: seq<string>)
    requires Look(fs, at, parts).Ok?
    ensures Look(fs, at, parts) == Ok(Walk(at, parts)) && Open(fs, Route(at, parts))
    decreases |parts|
  {
    if parts == [] {
    } else {
      LookIsWalk(fs, Follow(at, parts[0]), parts[1..]);
    }
  }

  /** What is found stays found exactly as long as the directories on the way are open. */
  lemma {:induction false} LookSameKinds(fs: Fs, fs': Fs, at: Path, parts: seq<string>)
    requires SameKinds(fs, fs') && Look(fs, at, parts).Ok?
    ensures Look(fs', at, parts).Ok? <==> Open(fs', Route(at, parts))
    decreases |parts|
  {
    if parts == [] {
    } else {
      LookSameKinds(fs, fs', Follow(at, parts[0]), parts[1..]);
    }
  }

  lemma {:induction false} WalkAppend(at: Path, a: seq<string>, b: seq<string>)
    ensures Walk(at, a + b) == Walk(Walk(at, a), b)
    decreases |a|
  {
    if a == [] {
      assert a + b == b;
    } else {
      assert (a + b)[1..] == a[1..] + b;
      WalkAppend(Follow(at, a[0]), a[1..], b);
    }
  }

  lemma {:induction false} WalkNames(t: Path, r: Path)
    requires AreNames(r)
    ensures Walk(t, r) == t + r
    decreases |r|
  {
    if r == [] {
      assert t + r == t;
    } else {
      assert IsName(r[0]);
      assert forall i :: 0 <= i < |r[1..]| ==> r[1..][i] == r[i + 1];
      WalkNames(t + [r[0]], r[1..]);
      assert t + [r[0]] + r[1..] == t + r;
    }
  }

  lemma {:induction false} WalkWithoutTrailing(at: Path, parts: seq<string>)
    ensures Walk(at, DropTrailing(parts)) == Walk(at, parts)
  {
    if parts != [] && Last(parts) == "" {
      WalkWithoutTrailing(at, Init(parts));
      WalkAppend(at, Init(parts), [""]);
      assert parts == Init(parts) + [""];
      assert [""][1..] == [];
    }
  }

  /** The directories that the text of a destination leads through. */
  function TargetRoute(cwd: Path, stem: string): set<Path> {
    Route(Start(cwd, stem), DropTrailing(BaseParts(stem)))
  }

  lemma {:induction false} RouteSnoc(at: Path, parts: seq<string>)
    requires parts != []
    ensures Route(at, parts) ==
            Route(at, Init(parts)) + if Last(parts) == "" then {} else {Walk(at, Init(parts))}
    decreases |parts|
  {
    if |parts| == 1 {
      assert parts[1..] == [];
    } else {
      assert Init(parts)[1..] == Init(parts[1..]);
      RouteSnoc(Follow(at, parts[0]), parts[1..]);
    }
  }

  lemma TargetIsWalk(fs: Fs, cwd: Path, stem: string, t: Path)
    requires Target(fs, cwd, stem) == Some(t)
    ensures t == Walk(Start(cwd, stem), BaseParts(stem)) && Open(fs, TargetRoute(cwd, stem))
  {
    hide Look, BaseParts;
    var at, parts := Start(cwd, stem), DropTrailing(BaseParts(stem));
    WalkWithoutTrailing(at, BaseParts(stem));
    if parts != [] {
      LookIsWalk(fs, at, Init(parts));
      WalkAppend(at, Init(parts), [Last(parts)]);
      assert parts == Init(parts) + [Last(parts)];
      assert [Last(parts)][1..] == [];
      RouteSnoc(at, parts);
    }
  }

  lemma TargetSameKinds(fs: Fs, fs': Fs, cwd: Path, stem: string)
    requires Target(fs, cwd, stem).Some? && SameKinds(fs, fs') && Open(fs', TargetRoute(cwd, stem))
    ensures Target(fs', cwd, stem) == Target(fs, cwd, stem)
  {
    hide Look, BaseParts;
    var at, parts := Start(cwd, stem), DropTrailing(BaseParts(stem));
    if parts != [] {
      DropTrailingEnds(BaseParts(stem));
      RouteSnoc(at, parts);
      LookSameKinds(fs, fs', at, Init(parts));
      LookIsWalk(fs, at, Init(parts));
      LookIsWalk(fs', at, Init(parts));
    }
  }

  /** Whatever else changes, the destination of an entry leads to the entry or nowhere. */
  lemma FoundAtEntry(fs: Fs, fs0: Fs, cwd: Path, stem: string, t: Path, r: Path)
    requires Target(fs0, cwd, stem) == Some(t) && AreNames(r) && (stem != "" || r != [])
    ensures Find(fs, cwd, DestinationOf(stem, r)).Ok? ==> Find(fs, cwd, DestinationOf(stem, r)) == Ok(t + r)
  {
    DestinationParts(cwd, stem, r);
    hide Look, BaseParts, Target, DestinationOf, Split, IsAbsolute;
    var at, below := Start(cwd, stem), if r == [] then [""] else r;
    var found := Look(fs, at, BaseParts(stem) + below);
    if found.Ok? {
      LookIsWalk(fs, at, BaseParts(stem) + below);
      WalkAppend(at, BaseParts(stem), below);
      TargetIsWalk(fs0, cwd, stem, t);
      if r == [] {
        assert [""][1..] == [];
        assert t + r == t;
      } else {
        WalkNames(t, r);
      }
    }
  }

  // ------------------------------------------------------------- requests for permissions

  /** The directory `r` of the copy can be reached from the target, whether the copy made it or it was there. */
  ghost predicate Reached(s: Fs, t: Path, r: Path) {
    Look(s, t, r) == Ok(t + r) && s[t + r].Dir?
  }

  /** Permissions are set exactly where the directory is reached, as long as the target is. */
  lemma SetsWhere(fs: Fs, s: Fs, cwd: Path, stem: string, t: Path, r: Path, open: bool)
    requires Target(fs, cwd, stem) == Some(t) && SameKinds(fs, s) && AreNames(r) && (stem != "" || r != [])
    ensures
      var changed := SetPermissions(s, cwd, DestinationOf(stem, r), open);
      if Open(s, TargetRoute(cwd, stem)) && Reached(s, t, r) then changed == Ok(s[t + r := Dir(open)]) else changed.Err?
  {
    var at, parts, below := Start(cwd, stem), BaseParts(stem), if r == [] then [""] else r;
    DestinationParts(cwd, stem, r);
    FoundAtEntry(s, fs, cwd, stem, t, r);
    FoundMeans(fs, s, cwd, stem, t, below);
    if Open(s, TargetRoute(cwd, stem)) && Reached(s, t, r) {
      TargetSameKinds(fs, s, cwd, stem);
      InDirectoryTarget(s, t, r);
      BaseFound(s, cwd, stem, t);
      LookAppend(s, at, parts, below);
    }
    if r == [] {
      RootBelow(s, t);
    }
    hide Look, BaseParts, Target, DestinationOf, Split, IsAbsolute, TargetRoute;
  }

  lemma RootBelow(s: Fs, t: Path)
    ensures Look(s, t, [""]).Ok? <==> Reached(s, t, [])
    ensures Look(s, t, [""]).Ok? ==> Look(s, t, [""]) == Ok(t)
  {
    assert t + [] == t && [""][1..] == [];
  }

  lemma InDirectoryTarget(s: Fs, t: Path, r: Path)
    requires Reached(s, t, r)
    ensures t in s && s[t].Dir?
  {
    assert r == [] ==> t + r == t;
  }

  lemma FoundMeans(fs: Fs, s: Fs, cwd: Path, stem: string, t: Path, below: seq<string>)
    requires Target(fs, cwd, stem) == Some(t)
    ensures
      Look(s, Start(cwd, stem), BaseParts(stem) + below).Ok? ==>
        Open(s, TargetRoute(cwd, stem)) && Look(s, t, below) == Look(s, Start(cwd, stem), BaseParts(stem) + below)
  {
    hide Look, BaseParts, Target, Split, IsAbsolute;
    var at, parts := Start(cwd, stem), BaseParts(stem);
    if Look(s, at, parts + below).Ok? {
      LookAppend(s, at, parts, below);
      LookIsWalk(s, at, parts);
      TargetIsWalk(fs, cwd, stem, t);
      LookWithoutTrailing(s, at, parts);
      LookIsWalk(s, at, DropTrailing(parts));
    }
  }

  lemma {:induction false} LookFrame(fs: Fs, fs': Fs, t: Path, r: Path)
    requires AreNames(r) && forall m :: 0 <= m <= |r| ==> Same(fs, fs', t + r[..m])
    ensures Look(fs', t, r) == Look(fs, t, r)
    decreases |r|
  {
    assert t + r[..0] == t;
    if r == [] {
      assert Same(fs, fs', t + r[..0]);
    } else {
      var up := Init(r);
      forall m | 0 <= m <= |up| ensures Same(fs, fs', t + up[..m]) {
        assert up[..m] == r[..m];
      }
      assert forall m :: 0 <= m < |up| ==> up[m] == r[m];
      LookFrame(fs, fs', t, up);
      LookSnoc(fs, t, r);
      LookSnoc(fs', t, r);
      assert IsName(r[|r| - 1]) && r[..|r| - 1] == up && r[..|r|] == r;
      assert Same(fs, fs', t + r[..|r|]) && Same(fs, fs', t + r[..|r| - 1]);
      assert up + [Last(r)] == r;
      LookOneFrame(fs, fs', t, up, Last(r));
    }
  }

  lemma LookOneFrame(fs: Fs, fs': Fs, t: Path, up: Path, name: string)
    requires IsName(name) && AreNames(up) && Look(fs', t, up) == Look(fs, t, up)
    requires Same(fs, fs', t + up) && Same(fs, fs', t + (up + [name]))
    ensures
      var p := Look(fs, t, up);
      p.Ok? ==> Look(fs', p.value, [name]) == Look(fs, p.value, [name])
  {
    var p := Look(fs, t, up);
    if p.Ok? {
      LookIsWalk(fs, t, up);
      WalkNames(t, up);
      hide Look;
      LookOne(fs, p.value, name);
      LookOne(fs', p.value, name);
      assert t + up + [name] == t + (up + [name]);
    }
  }
}
