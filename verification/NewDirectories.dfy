/**
 Making a directory with all that lead to it. The library tries the whole path
 first and goes back to what is missing; that comes to the same as making one
 directory after the other from the front.
 */
module NewDirectories {
  import opened Wrappers
  import opened Paths
  import opened RemoteFs
  import opened RemotePaths
  import opened Copies
  import opened Routes

  // ------------------------------------------------------------- from the front

  /** Follows the parts of a path, and makes each name that is not there. */
  function MakeWay(fs: Fs, at: Path, parts: seq<string>): (Fs, bool)
    decreases |parts|
  {
    if at !in fs then (fs, false)
    else if parts == [] then (fs, fs[at].Dir?)
    else if fs[at].File? then (fs, false)
    else if parts[0] != "" && !fs[at].open then (fs, false)
    else
      var next := Follow(at, parts[0]);
      MakeWay(if IsName(parts[0]) && next !in fs then fs[next := Dir(true)] else fs, next, parts[1..])
  }

  lemma {:induction false} MakeWayAppend(fs: Fs, at: Path, a: seq<string>, b: seq<string>)
    ensures
      var (fs', ok) := MakeWay(fs, at, a);
      MakeWay(fs, at, a + b) == if ok then MakeWay(fs', Walk(at, a), b) else (fs', false)
    decreases |a|
  {
    if a == [] {
      assert a + b == b;
    } else {
      assert (a + b)[1..] == a[1..] + b;
      var next := Follow(at, a[0]);
      MakeWayAppend(fs, next, a[1..], b);
      MakeWayAppend(fs[next := Dir(true)], next, a[1..], b);
    }
  }

  lemma {:induction false} MakeWayGrows(fs: Fs, at: Path, parts: seq<string>)
    ensures Grows(fs, MakeWay(fs, at, parts).0)
    decreases |parts|
  {
    if parts == [] {
    } else {
      var next := Follow(at, parts[0]);
      MakeWayGrows(fs, next, parts[1..]);
      if next !in fs {
        MakeWayGrows(fs[next := Dir(true)], next, parts[1..]);
      }
    }
  }

  /** What has been made is found. */
  lemma {:induction false} MadeIsFound(fs: Fs, at: Path, parts: seq<string>)
    requires MakeWay(fs, at, parts).1
    ensures
      var fs' := MakeWay(fs, at, parts).0;
      Look(fs', at, parts) == Ok(Walk(at, parts)) && fs'[Walk(at, parts)].Dir?
    decreases |parts|
  {
    MakeWayGrows(fs, at, parts);
    if parts == [] {
    } else {
      var next := Follow(at, parts[0]);
      MadeIsFound(if IsName(parts[0]) && next !in fs then fs[next := Dir(true)] else fs, next, parts[1..]);
    }
  }

  /** Where all is there, nothing is made; nor where something else than that is wrong. */
  lemma {:induction false} NothingToMake(fs: Fs, at: Path, parts: seq<string>)
    requires Look(fs, at, parts) != Err(NotFound)
    ensures MakeWay(fs, at, parts) == (fs, IsDirAt(fs, at, parts))
    decreases |parts|
  {
    if parts == [] {
    } else if fs[at].Dir? && (parts[0] == "" || fs[at].open) {
      NothingToMake(fs, Follow(at, parts[0]), parts[1..]);
    }
  }

  /** Empty parts and dots stay where they are. */
  ghost predicate Staying(parts: seq<string>) {
    forall i :: 0 <= i < |parts| ==> parts[i] == "" || parts[i] == "."
  }

  lemma {:induction false} StayingLook(fs: Fs, at: Path, parts: seq<string>)
    requires at in fs && Staying(parts)
    ensures Look(fs, at, parts) != Err(NotFound) && Walk(at, parts) == at
    decreases |parts|
  {
    if parts == [] {
    } else {
      assert Staying(parts[1..]) by {
        assert forall i :: 0 <= i < |parts[1..]| ==> parts[1..][i] == parts[i + 1];
      }
      StayingLook(fs, at, parts[1..]);
    }
  }

  lemma {:induction false} EmptyParts(fs: Fs, at: Path, parts: seq<string>)
    requires forall i :: 0 <= i < |parts| ==> parts[i] == ""
    ensures at in fs && fs[at].Dir? ==> MakeWay(fs, at, parts) == (fs, true)
    ensures MakeWay(fs, at, parts).0 == fs
    decreases |parts|
  {
    if parts == [] {
    } else {
      assert forall i :: 0 <= i < |parts[1..]| ==> parts[1..][i] == parts[i + 1];
      EmptyParts(fs, at, parts[1..]);
    }
  }

  lemma {:induction false} TrailingAreEmpty(parts: seq<string>)
    ensures
      var q := DropTrailing(parts);
      parts == q + parts[|q|..] && forall i :: 0 <= i < |parts[|q|..]| ==> parts[|q|..][i] == ""
  {
    if parts != [] && Last(parts) == "" {
      TrailingAreEmpty(Init(parts));
      var q := DropTrailing(Init(parts));
      assert parts[|q|..] == Init(parts)[|q|..] + [""];
    }
  }

  lemma {:induction false} DroppedAreStaying(parts: seq<string>)
    ensures
      var q := DropDots(parts);
      parts == q + parts[|q|..] && Staying(parts[|q|..]) && (q != [] ==> Last(q) != "" && Last(q) != ".")
  {
    if parts != [] && (Last(parts) == "" || Last(parts) == ".") {
      DroppedAreStaying(Init(parts));
      var q := DropDots(Init(parts));
      assert parts[|q|..] == Init(parts)[|q|..] + [Last(parts)];
    }
  }

  /** Final separators ask for a directory, which has been made anyway. */
  lemma TrailingMakesNothing(fs: Fs, at: Path, parts: seq<string>)
    ensures MakeWay(fs, at, parts) == MakeWay(fs, at, DropTrailing(parts))
  {
    var q := DropTrailing(parts);
    TrailingAreEmpty(parts);
    MakeWayAppend(fs, at, q, parts[|q|..]);
    var (fs', ok) := MakeWay(fs, at, q);
    if ok {
      MadeIsFound(fs, at, q);
      EmptyParts(fs', Walk(at, q), parts[|q|..]);
    }
  }

  // -------------------------------------------------------------- one attempt

  /** The path has a last part that can be made, or goes up. */
  ghost predicate EndsInPart(parts: seq<string>) {
    var q := DropTrailing(parts);
    q != [] && Last(q) != "."
  }

  ghost predicate EndsInDot(parts: seq<string>) {
    var q := DropTrailing(parts);
    q != [] && Last(q) == "."
  }

  lemma MakeWaySnoc(fs: Fs, at: Path, q: seq<string>)
    requires q != []
    ensures
      var (fs', ok) := MakeWay(fs, at, Init(q));
      MakeWay(fs, at, q) == if ok then MakeWay(fs', Walk(at, Init(q)), [Last(q)]) else (fs', false)
  {
    assert q == Init(q) + [Last(q)];
    MakeWayAppend(fs, at, Init(q), [Last(q)]);
  }

  lemma MakeOne(fs: Fs, p: Path, part: string)
    requires p in fs
    ensures
      MakeWay(fs, p, [part]) ==
        if fs[p].File? || (part != "" && !fs[p].open) then (fs, false)
        else
          var next := Follow(p, part);
          if IsName(part) && next !in fs then (fs[next := Dir(true)], true) else (fs, next in fs && fs[next].Dir?)
  {
    assert [part][1..] == [];
  }

  lemma IsDirWithoutTrailing(fs: Fs, at: Path, parts: seq<string>)
    ensures IsDirAt(fs, at, parts) <==> IsDirAt(fs, at, DropTrailing(parts))
  {
    hide Look;
    if IsDirAt(fs, at, parts) {
      LookWithoutTrailing(fs, at, parts);
    }
    if IsDirAt(fs, at, DropTrailing(parts)) {
      LookWithTrailing(fs, at, parts);
    }
  }

  /** Unless something is missing on the way to the last part, one attempt does all that can be done. */
  lemma OneAttempt(fs: Fs, at: Path, parts: seq<string>)
    requires EndsInPart(parts) && Look(fs, at, Init(DropTrailing(parts))) != Err(NotFound)
    ensures MakeOrFind(fs, at, parts) == MakeWay(fs, at, parts)
    ensures CreateDirAt(fs, at, parts) != Err(NotFound)
  {
    var q := DropTrailing(parts);
    DropTrailingEnds(parts);
    TrailingMakesNothing(fs, at, parts);
    IsDirWithoutTrailing(fs, at, parts);
    hide DropTrailing, Look, MakeWay, Walk;
    MakeWaySnoc(fs, at, q);
    NothingToMake(fs, at, Init(q));
    LookSnoc(fs, at, q);
    var found := Look(fs, at, Init(q));
    if found.Ok? {
      LookIsWalk(fs, at, Init(q));
      LookOne(fs, found.value, Last(q));
      MakeOne(fs, found.value, Last(q));
    }
  }

  // ------------------------------------------------------------------ the theorem

  lemma AttemptFails(fs: Fs, at: Path, parts: seq<string>)
    requires DropTrailing(parts) != [] && Look(fs, at, Init(DropTrailing(parts))) == Err(NotFound)
    ensures CreateDirAt(fs, at, parts) == Err(NotFound)
  {
    DropTrailingEnds(parts);
  }

  /** Once the directories above are made, the last part is all that is left. */
  lemma RestOfTheWay(fs: Fs, at: Path, parts: seq<string>, up: seq<string>)
    requires EndsInPart(parts) && up == DropDots(Init(DropTrailing(parts)))
    ensures
      var (fs', ok) := MakeWay(fs, at, up);
      MakeWay(fs, at, parts) == if ok then MakeOrFind(fs', at, parts) else (fs', false)
  {
    var q := DropTrailing(parts);
    var init := Init(q);
    var (fs', ok) := MakeWay(fs, at, up);
    TrailingMakesNothing(fs, at, parts);
    TrailingMakesNothing(fs', at, parts);
    DroppedAreStaying(init);
    var rest := init[|up|..] + [Last(q)];
    assert q == up + rest;
    hide DropTrailing, DropDots, Look, MakeWay, Walk, MakeOrFind;
    MakeWayAppend(fs, at, up, rest);
    if ok {
      MadeIsFound(fs, at, up);
      NothingToMake(fs', at, up);
      MakeWayAppend(fs', at, up, rest);
      LookAppend(fs', at, up, init[|up|..]);
      StayingLook(fs', Walk(at, up), init[|up|..]);
      assert init == up + init[|up|..];
      OneAttempt(fs', at, parts);
    }
  }

  lemma {:induction false} DropDotsOfPart(parts: seq<string>)
    requires EndsInPart(parts)
    ensures DropDots(parts) == DropTrailing(parts)
  {
    DropTrailingEnds(parts);
    if Last(parts) == "" {
      DropDotsOfPart(Init(parts));
    }
  }

  lemma UpEndsInPart(parts: seq<string>)
    requires DropDots(parts) != []
    ensures EndsInPart(DropDots(parts))
  {
    DroppedAreStaying(parts);
  }

  lemma NothingUp(fs: Fs, at: Path, q: seq<string>)
    requires q != [] && DropDots(Init(q)) == [] && at in fs
    ensures Look(fs, at, Init(q)) != Err(NotFound)
  {
    DroppedAreStaying(Init(q));
    assert Init(q)[0..] == Init(q);
    StayingLook(fs, at, Init(q));
  }

  /** For every path that does not end in a dot, the library does what making one part after the other does. */
  lemma {:induction false} CreatesWay(fs: Fs, at: Path, parts: seq<string>)
    requires at in fs && EndsInPart(parts)
    ensures CreateAllAt(fs, at, parts) == MakeWay(fs, at, parts)
    decreases |parts|
  {
    var q := DropTrailing(parts);
    var up := DropDots(Init(q));
    DropDotsOfPart(parts);
    if Look(fs, at, Init(q)) != Err(NotFound) {
      OneAttempt(fs, at, parts);
      hide CreateDirAt, Look, DropTrailing, DropDots, IsDirAt, MakeWay;
    } else {
      AttemptFails(fs, at, parts);
      if up == [] {
        NothingUp(fs, at, q);
      } else {
        UpEndsInPart(Init(q));
        CreatesWay(fs, at, up);
        RestOfTheWay(fs, at, parts, up);
        hide CreateDirAt, Look, DropTrailing, DropDots, IsDirAt, MakeWay, MakeOrFind;
      }
    }
  }

  /**
   A path that ends in a dot has no last part to make: what leads to the part
   before the dot is made, if it is missing, but not that part.
   */
  lemma DotIsNotMade(fs: Fs, at: Path, parts: seq<string>)
    requires at in fs && EndsInDot(parts)
    ensures
      var up := if DropDots(parts) == [] then [] else DropDots(Init(DropDots(parts)));
      var there := Look(fs, at, Init(DropTrailing(parts))) != Err(NotFound);
      var (fs', ok) := if there || up == [] then (fs, true) else MakeWay(fs, at, up);
      CreateAllAt(fs, at, parts) == (fs', ok && IsDirAt(fs', at, parts))
  {
    var q := DropTrailing(parts);
    var up := if DropDots(parts) == [] then [] else DropDots(Init(DropDots(parts)));
    NoNewDot(fs, at, parts);
    if DropDots(parts) == [] {
      AllStaying(fs, at, parts);
    } else if Look(fs, at, Init(q)) == Err(NotFound) {
      AttemptFails(fs, at, parts);
      if up != [] {
        UpEndsInPart(Init(DropDots(parts)));
        CreatesWay(fs, at, up);
        NoNewDot(MakeWay(fs, at, up).0, at, parts);
      }
    }
    hide CreateDirAt, Look, DropTrailing, DropDots, IsDirAt, MakeWay;
  }

  lemma AllStaying(fs: Fs, at: Path, parts: seq<string>)
    requires at in fs && EndsInDot(parts) && DropDots(parts) == []
    ensures Look(fs, at, Init(DropTrailing(parts))) != Err(NotFound)
  {
    var init := Init(DropTrailing(parts));
    DroppedAreStaying(parts);
    assert parts[0..] == parts;
    assert forall i :: 0 <= i < |init| ==> init[i] == parts[i];
    StayingLook(fs, at, init);
  }

  lemma NoNewDot(fs: Fs, at: Path, parts: seq<string>)
    requires EndsInDot(parts)
    ensures CreateDirAt(fs, at, parts).Err? && MakeOrFind(fs, at, parts) == (fs, IsDirAt(fs, at, parts))
    ensures CreateDirAt(fs, at, parts) == Err(NotFound) ==> Look(fs, at, Init(DropTrailing(parts))) == Err(NotFound)
  {
    hide Look, DropTrailing;
  }

  // ------------------------------------------------------------ what it leaves behind

  lemma NewEntryFound(fs: Fs, at: Path, parts: seq<string>)
    requires CreateDirAt(fs, at, parts).Ok?
    ensures IsDirAt(CreateDirAt(fs, at, parts).value, at, parts)
  {
    var q := DropTrailing(parts);
    var fs' := CreateDirAt(fs, at, parts).value;
    hide Look, DropTrailing;
    LookGrows(fs, fs', at, Init(q));
    LookSnoc(fs', at, q);
    LookOne(fs', Look(fs', at, Init(q)).value, Last(q));
    IsDirWithoutTrailing(fs', at, parts);
  }

  /** Success means that the directory is there. */
  lemma CreatedIsThere(fs: Fs, at: Path, parts: seq<string>)
    requires CreateAllAt(fs, at, parts).1
    ensures IsDirAt(CreateAllAt(fs, at, parts).0, at, parts)
  {
    hide Look, NewEntry, DropDots, DropTrailing;
    if CreateDirAt(fs, at, parts).Ok? {
      NewEntryFound(fs, at, parts);
    } else if CreateDirAt(fs, at, parts) == Err(NotFound) {
      var up := DropDots(Init(DropDots(parts)));
      var fs' := if up == [] then fs else CreateAllAt(fs, at, up).0;
      if CreateDirAt(fs', at, parts).Ok? {
        NewEntryFound(fs', at, parts);
      }
    }
    hide CreateDirAt, IsDirAt;
  }

  lemma CreateDirKeepsFs(fs: Fs, at: Path, parts: seq<string>)
    requires IsFs(fs) && CreateDirAt(fs, at, parts).Ok?
    ensures IsFs(CreateDirAt(fs, at, parts).value)
  {
    hide Look, DropTrailing;
    var fs' := CreateDirAt(fs, at, parts).value;
    var p := NewEntry(fs, at, DropTrailing(parts)).value;
    forall r | r in fs' ensures InDirectory(fs', r) {
      if r != p {
        assert InDirectory(fs, r);
      } else {
        assert Init(p) == Look(fs, at, Init(DropTrailing(parts))).value;
      }
    }
  }

  lemma {:induction false} CreateAllKeepsFs(fs: Fs, at: Path, parts: seq<string>)
    requires IsFs(fs)
    ensures IsFs(CreateAllAt(fs, at, parts).0)
    decreases |parts|
  {
    hide Look, NewEntry, CreateDirAt, IsDirAt, IsFs;
    if CreateDirAt(fs, at, parts).Ok? {
      CreateDirKeepsFs(fs, at, parts);
    } else if DropDots(parts) != [] {
      var up := DropDots(Init(DropDots(parts)));
      if up != [] {
        CreateAllKeepsFs(fs, at, up);
      }
      var fs' := if up == [] then fs else CreateAllAt(fs, at, up).0;
      if CreateDirAt(fs', at, parts).Ok? {
        CreateDirKeepsFs(fs', at, parts);
      }
    }
  }

  // ---------------------------------------------------------------- missing names

  /** A directory below `d`, and those that lead there. */
  ghost function MadeAll(fs: Fs, d: Path, names: seq<string>): Fs
    decreases |names|
  {
    if names == [] then fs else MadeAll(fs[d + [names[0]] := Dir(true)], d + [names[0]], names[1..])
  }

  lemma {:induction false} NothingBelow(fs: Fs, t: Path, p: Path)
    requires IsFs(fs) && t !in fs && t <= p
    ensures p !in fs
    decreases |p|
  {
    if p != t && p in fs {
      assert InDirectory(fs, p);
      assert t <= Init(p);
      NothingBelow(fs, t, Init(p));
    }
  }

  lemma {:induction false} MadeAllAt(fs: Fs, d: Path, names: seq<string>, p: Path)
    ensures
      var fs' := MadeAll(fs, d, names);
      if d < p && p <= d + names then Has(fs', p, Dir(true)) else Same(fs, fs', p)
    decreases |names|
  {
    if names == [] {
      assert d + names == d;
    } else {
      var next := d + [names[0]];
      MadeAllAt(fs[next := Dir(true)], next, names[1..], p);
      assert next + names[1..] == d + names;
      if d < p && p <= d + names {
        assert p[..|next|] == (d + names)[..|next|] == next;
        assert p == next || next < p;
      }
    }
  }

  /** What is missing on the way to the directory `d` and below it. */
  ghost predicate Missing(fs: Fs, d: Path, parts: seq<string>) {
    && IsFs(fs) && d in fs && fs[d].Dir?
    && Plain(parts) != [] && AreNames(Plain(parts)) && d + [Plain(parts)[0]] !in fs
  }

  lemma {:induction false} MakesNames(fs: Fs, d: Path, parts: seq<string>)
    requires d in fs && fs[d] == Dir(true) && AreNames(Plain(parts))
    requires forall p :: d < p ==> p !in fs
    ensures MakeWay(fs, d, parts) == (MadeAll(fs, d, Plain(parts)), true)
    decreases |parts|
  {
    if parts == [] {
    } else if parts[0] == "" || parts[0] == "." {
      assert Plain(parts) == Plain(parts[1..]);
      MakesNames(fs, d, parts[1..]);
    } else {
      var names := Plain(parts);
      assert names[0] == parts[0] && names[1..] == Plain(parts[1..]) && IsName(names[0]);
      assert forall i :: 0 <= i < |names[1..]| ==> names[1..][i] == names[i + 1];
      assert d < d + [names[0]];
      MakesNames(fs[d + [names[0]] := Dir(true)], d + [names[0]], parts[1..]);
    }
  }

  /**
   Missing names, with empty parts and dots between them, are all made if the
   directory that is there lets them through; otherwise nothing is.
   */
  lemma {:induction false} MakesMissing(fs: Fs, d: Path, parts: seq<string>)
    requires Missing(fs, d, parts)
    ensures MakeWay(fs, d, parts) == if fs[d].open then (MadeAll(fs, d, Plain(parts)), true) else (fs, false)
    decreases |parts|
  {
    if parts[0] == "" || parts[0] == "." {
      assert Plain(parts) == Plain(parts[1..]);
      MakesMissing(fs, d, parts[1..]);
    } else {
      var names := Plain(parts);
      assert names[0] == parts[0] && names[1..] == Plain(parts[1..]) && IsName(names[0]);
      var next := d + [names[0]];
      var made := fs[next := Dir(true)];
      forall p | next < p ensures p !in made {
        NothingBelow(fs, next, p);
      }
      assert forall i :: 0 <= i < |names[1..]| ==> names[1..][i] == names[i + 1];
      MakesNames(made, next, parts[1..]);
    }
  }

  /** The same for a path that leads to that directory first. */
  lemma MakesMissingFrom(fs: Fs, at: Path, base: seq<string>, missing: seq<string>, d: Path)
    requires Look(fs, at, base) == Ok(d) && Missing(fs, d, missing)
    ensures MakeWay(fs, at, base + missing) ==
            if fs[d].open then (MadeAll(fs, d, Plain(missing)), true) else (fs, false)
    ensures Walk(at, base + missing) == d + Plain(missing)
  {
    hide Look, MakeWay, MadeAll, AreNames, IsFs;
    NothingToMake(fs, at, base);
    LookIsWalk(fs, at, base);
    MakeWayAppend(fs, at, base, missing);
    MakesMissing(fs, d, missing);
    WalkAppend(at, base, missing);
    WalkPlain(d, missing);
    WalkNames(d, Plain(missing));
  }

  lemma {:induction false} WalkPlain(at: Path, parts: seq<string>)
    ensures Walk(at, parts) == Walk(at, Plain(parts))
    decreases |parts|
  {
    if parts == [] {
    } else {
      WalkPlain(Follow(at, parts[0]), parts[1..]);
      if parts[0] != "" && parts[0] != "." {
        assert Plain(parts)[1..] == Plain(parts[1..]);
      } else {
        assert Plain(parts) == Plain(parts[1..]);
      }
    }
  }

  /** Nothing is below the last of them. */
  lemma MadeIsEmpty(fs: Fs, d: Path, missing: seq<string>, p: Path)
    requires Missing(fs, d, missing) && d + Plain(missing) <= p
    ensures
      var fs' := MadeAll(fs, d, Plain(missing));
      if p == d + Plain(missing) then Has(fs', p, Dir(true)) else p !in fs'
  {
    hide MadeAll, IsFs;
    var names := Plain(missing);
    MadeAllAt(fs, d, names, p);
    assert d + [names[0]] <= d + names;
    if p != d + names {
      NothingBelow(fs, d + [names[0]], p);
    }
  }
}
