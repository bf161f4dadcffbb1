/** What the requests of a recursive copy do at a path below its destination. */
module RemotePaths {
  import opened Wrappers
  import opened Numbers
  import opened Paths
  import opened RemoteFs

  // ------------------------------------------------------------------ resolution

  lemma {:induction false} LookAppend(fs: Fs, at: Path, a: seq<string>, b: seq<string>)
    ensures Look(fs, at, a + b) == match Look(fs, at, a) case Ok(p) => Look(fs, p, b) case Err(e) => Err(e)
    decreases |a|
  {
    if a == [] {
      assert a + b == b;
    } else {
      assert (a + b)[1..] == a[1..] + b;
      LookAppend(fs, Follow(at, a[0]), a[1..], b);
    }
  }

  lemma LookSnoc(fs: Fs, at: Path, parts: seq<string>)
    requires parts != []
    ensures Look(fs, at, parts) ==
            match Look(fs, at, Init(parts)) case Ok(p) => Look(fs, p, [Last(parts)]) case Err(e) => Err(e)
  {
    assert parts == Init(parts) + [Last(parts)];
    LookAppend(fs, at, Init(parts), [Last(parts)]);
  }

  lemma LookOne(fs: Fs, p: Path, part: string)
    requires p in fs
    ensures Look(fs, p, [part]) ==
            if fs[p].File? then Err(NotADirectory)
            else if part != "" && !fs[p].open then Err(PermissionDenied)
            else if Follow(p, part) in fs then Ok(Follow(p, part)) else Err(NotFound)
  {
    assert [part][1..] == [];
  }

  /** Everything that leads to `t + r` is there and can be traversed. */
  ghost predicate Clear(fs: Fs, t: Path, r: Path) {
    forall k :: 0 <= k < |r| ==> t + r[..k] in fs && fs[t + r[..k]] == Dir(true)
  }

  lemma {:induction false} LookDown(fs: Fs, t: Path, r: Path)
    requires t in fs && AreNames(r) && Clear(fs, t, r)
    ensures Look(fs, t, r) == if t + r in fs then Ok(t + r) else Err(NotFound)
    decreases |r|
  {
    if r == [] {
      assert t + r == t;
    } else {
      var up := Init(r);
      assert forall k :: 0 <= k < |up| ==> up[..k] == r[..k] && up[k] == r[k];
      assert up == r[..|r| - 1];
      LookDown(fs, t, up);
      LookSnoc(fs, t, r);
      assert IsName(r[|r| - 1]);
      LookOne(fs, t + up, Last(r));
      assert t + up + [Last(r)] == t + r;
    }
  }

  lemma {:induction false} LookWithoutTrailing(fs: Fs, at: Path, parts: seq<string>)
    requires Look(fs, at, parts).Ok?
    ensures Look(fs, at, DropTrailing(parts)) == Look(fs, at, parts)
    ensures Look(fs, at, DropDots(parts)) == Look(fs, at, parts)
    decreases |parts|
  {
    if parts != [] && (Last(parts) == "" || Last(parts) == ".") {
      LookSnoc(fs, at, parts);
      var p := Look(fs, at, Init(parts)).value;
      LookOne(fs, p, Last(parts));
      LookWithoutTrailing(fs, at, Init(parts));
    }
  }

  lemma {:induction false} LookWithTrailing(fs: Fs, at: Path, parts: seq<string>)
    requires Look(fs, at, DropTrailing(parts)).Ok? && fs[Look(fs, at, DropTrailing(parts)).value].Dir?
    ensures Look(fs, at, parts) == Look(fs, at, DropTrailing(parts))
    decreases |parts|
  {
    if parts != [] && Last(parts) == "" {
      LookWithTrailing(fs, at, Init(parts));
      LookSnoc(fs, at, parts);
      LookOne(fs, Look(fs, at, Init(parts)).value, "");
    }
  }

  // ---------------------------------------------------------------------- growth

  /** Nothing goes away, directories stay as they are, and files stay files. */
  ghost predicate Grows(fs: Fs, fs': Fs) {
    forall p :: p in fs ==> p in fs' && (if fs[p].Dir? then fs'[p] == fs[p] else fs'[p].File?)
  }

  /** Nothing goes away, and the kind of nothing changes. */
  ghost predicate SameKinds(fs: Fs, fs': Fs) {
    forall p :: p in fs ==> p in fs' && fs'[p].Dir? == fs[p].Dir?
  }

  lemma {:induction false} LookGrows(fs: Fs, fs': Fs, at: Path, parts: seq<string>)
    requires Grows(fs, fs') && Look(fs, at, parts).Ok?
    ensures Look(fs', at, parts) == Look(fs, at, parts)
    decreases |parts|
  {
    if parts == [] {
    } else {
      LookGrows(fs, fs', Follow(at, parts[0]), parts[1..]);
    }
  }

  /** A missing entry of a directory is missing. */
  lemma NewEntryIsNew(fs: Fs, at: Path, parts: seq<string>)
    requires parts != [] && NewEntry(fs, at, parts).Ok? && !Look(fs, at, parts).Ok?
    ensures NewEntry(fs, at, parts).value !in fs
  {
    LookSnoc(fs, at, parts);
    LookOne(fs, Look(fs, at, Init(parts)).value, Last(parts));
  }

  lemma WriteFileGrows(fs: Fs, cwd: Path, s: string, content: Bytes)
    requires WriteFile(fs, cwd, s, content).Ok?
    ensures Grows(fs, WriteFile(fs, cwd, s, content).value)
  {
    hide Look, NewEntry;
    if Find(fs, cwd, s).Err? {
      NewEntryIsNew(fs, Start(cwd, s), Split(s));
    }
  }

  /** Creating a directory and putting a file change the kind of nothing that was there. */
  lemma RequestsGrow(fs: Fs, cwd: Path, s: string, filename: string, content: Bytes)
    ensures MakeDirectory(fs, cwd, s).Ok? ==> Grows(fs, MakeDirectory(fs, cwd, s).value)
    ensures PutFile(fs, cwd, s, filename, content).Ok? ==> Grows(fs, PutFile(fs, cwd, s, filename, content).value)
  {
    hide Look, NewEntry, Split, WriteFile, IsDir, Push, AppendsName;
    var appends := AppendsName(fs, cwd, s);
    if appends.Ok? {
      var path := if appends.value then Push(s, filename) else s;
      var target := if IsDir(fs, cwd, path) then Push(path, filename) else path;
      if WriteFile(fs, cwd, target, content).Ok? {
        WriteFileGrows(fs, cwd, target, content);
      }
    }
  }

  // ----------------------------------------------------------------- destinations

  /** Where the text of a destination leads, whether or not there is something: its directory has to be there. */
  function Target(fs: Fs, cwd: Path, stem: string): Option<Path> {
    var parts := DropTrailing(BaseParts(stem));
    if parts == [] then Some(Start(cwd, stem))
    else
      match Look(fs, Start(cwd, stem), Init(parts))
      case Err(_) => None
      case Ok(p) => if fs[p] == Dir(true) then Some(Follow(p, Last(parts))) else None
  }

  lemma TargetGrows(fs: Fs, fs': Fs, cwd: Path, stem: string)
    requires Grows(fs, fs') && Target(fs, cwd, stem).Some?
    ensures Target(fs', cwd, stem) == Target(fs, cwd, stem)
  {
    hide Look;
    var parts := DropTrailing(BaseParts(stem));
    if parts != [] {
      LookGrows(fs, fs', Start(cwd, stem), Init(parts));
    }
  }

  /** The destination of the entry `r` of a recursive copy. */
  function DestinationOf(stem: string, r: Path): string {
    JoinRemote(stem, Join(r))
  }

  /** The parts of that destination; for the root there is a final separator. */
  lemma DestinationParts(cwd: Path, stem: string, r: Path)
    requires AreNames(r) && (stem != "" || r != [])
    ensures Split(DestinationOf(stem, r)) == BaseParts(stem) + if r == [] then [""] else r
    ensures Start(cwd, DestinationOf(stem, r)) == Start(cwd, stem)
    ensures DestinationOf(stem, r) != ""
  {
    SplitUndoesJoin(r);
    if r != [] {
      assert IsName(r[0]);
      FirstOfJoin(r);
    }
    JoinRemoteParts(stem, Join(r));
  }

  lemma FirstOfJoin(names: seq<string>)
    requires names != [] && names[0] != ""
    ensures Join(names) != "" && Join(names)[0] == names[0][0]
  {
  }

  lemma BaseFound(fs: Fs, cwd: Path, stem: string, t: Path)
    requires Target(fs, cwd, stem) == Some(t) && t in fs && fs[t].Dir?
    ensures Look(fs, Start(cwd, stem), BaseParts(stem)) == Ok(t)
  {
    hide Look, BaseParts;
    var parts := DropTrailing(BaseParts(stem));
    if parts == [] {
      LookNothing(fs, t);
    } else {
      LookSnoc(fs, Start(cwd, stem), parts);
      LookOne(fs, Look(fs, Start(cwd, stem), Init(parts)).value, Last(parts));
    }
    LookWithTrailing(fs, Start(cwd, stem), BaseParts(stem));
  }

  lemma LookNothing(fs: Fs, at: Path)
    ensures Look(fs, at, []) == if at in fs then Ok(at) else Err(NotFound)
  {
  }

  lemma LookBelow(fs: Fs, cwd: Path, stem: string, t: Path, r: Path)
    requires Target(fs, cwd, stem) == Some(t) && t in fs && fs[t].Dir?
    ensures Look(fs, Start(cwd, stem), BaseParts(stem) + r) == Look(fs, t, r)
  {
    hide Look, BaseParts, Target;
    BaseFound(fs, cwd, stem, t);
    LookAppend(fs, Start(cwd, stem), BaseParts(stem), r);
  }

  // --------------------------------------------------------- requests at an entry

  /** The destination leads to the directory `t`, and from there to the directory of the entry `r`. */
  ghost predicate Leads(fs: Fs, cwd: Path, stem: string, t: Path, r: Path) {
    && Target(fs, cwd, stem) == Some(t)
    && t in fs && fs[t].Dir?
    && r != [] && AreNames(r)
    && Clear(fs, t, Init(r))
    && t + Init(r) in fs && fs[t + Init(r)].Dir?
  }

  lemma LeadsTo(fs: Fs, cwd: Path, stem: string, t: Path, r: Path)
    requires Leads(fs, cwd, stem, t, r)
    ensures
      var dest := DestinationOf(stem, r);
      var parts, at := Split(dest), Start(cwd, dest);
      && dest != "" && parts != [] && Last(parts) == Last(r) && IsName(Last(parts))
      && Look(fs, at, Init(parts)) == Ok(t + Init(r))
      && (if !fs[t + Init(r)].open then
            Look(fs, at, parts) == Err(PermissionDenied) && NewEntry(fs, at, parts) == Err(PermissionDenied)
          else
            && Look(fs, at, parts) == (if t + r in fs then Ok(t + r) else Err(NotFound))
            && NewEntry(fs, at, parts) == Ok(t + r))
  {
    hide Look, Target, Split;
    DestinationParts(cwd, stem, r);
    LookBelow(fs, cwd, stem, t, r);
    LookBelow(fs, cwd, stem, t, Init(r));
    var parts := BaseParts(stem) + r;
    assert Init(parts) == BaseParts(stem) + Init(r);
    assert IsName(r[|r| - 1]);
    assert forall k :: 0 <= k < |Init(r)| ==> Init(r)[k] == r[k];
    LookDown(fs, t, Init(r));
    LookSnoc(fs, Start(cwd, stem), parts);
    LookOne(fs, t + Init(r), Last(r));
    assert t + Init(r) + [Last(r)] == t + r;
  }

  lemma EndsInEmptyPart(s: string)
    requires EndsWithSeparator(s)
    ensures Last(Split(s)) == ""
  {
    SplitAtSeparator(s[..|s| - 1], "");
    assert s == s[..|s| - 1] + "/" + "";
  }

  lemma NameEndsPath(s: string)
    requires IsName(Last(Split(s)))
    ensures !EndsWithSeparator(s) && s != "."
    ensures DropTrailing(Split(s)) == Split(s) && DropDots(Split(s)) == Split(s)
  {
    if EndsWithSeparator(s) {
      EndsInEmptyPart(s);
    }
    if s == "." {
      SplitName(s);
    }
  }

  /** The parent directory of an entry that is led to is found by the lexical check too. */
  lemma ParentFound(fs: Fs, cwd: Path, stem: string, t: Path, r: Path)
    requires Leads(fs, cwd, stem, t, r) && fs[t + Init(r)].open
    ensures ParentIsDir(fs, cwd, DestinationOf(stem, r))
  {
    var dest := DestinationOf(stem, r);
    var at, parts := Start(cwd, dest), Split(dest);
    LeadsTo(fs, cwd, stem, t, r);
    NameEndsPath(dest);
    hide Split, Target, Leads, DestinationOf;
    LookWithoutTrailing(fs, at, Init(parts));
    var parent := ParentParts(dest);
    assert parent == DropDots(Init(parts));
    if parent == [] {
      LookNothing(fs, at);
      assert Look(fs, at, []) == Ok(t + Init(r));
      LookOne(fs, at, ".");
    }
  }

  /** An entry whose directory is there and can be traversed is made, if need be. */
  lemma MakeDirectoryAt(fs: Fs, cwd: Path, stem: string, t: Path, r: Path)
    requires Leads(fs, cwd, stem, t, r)
    ensures
      MakeDirectory(fs, cwd, DestinationOf(stem, r)) ==
        if !fs[t + Init(r)].open then Err(IncorrectPermissions)
        else if t + r !in fs then Ok(fs[t + r := Dir(true)])
        else if fs[t + r].Dir? then Ok(fs)
        else Err(ItIsAFile)
  {
    LeadsTo(fs, cwd, stem, t, r);
    NameEndsPath(DestinationOf(stem, r));
    hide Look, Split, NewEntry, DestinationOf, Leads;
  }

  // ------------------------------------------------------------ where a file settles

  /** Where a file ends up whose name is appended, up to `pushes` times, as long as there is a directory. */
  ghost function Settle(fs: Fs, p: Path, name: string, pushes: nat): Path
    decreases pushes
  {
    if pushes > 0 && p in fs && fs[p].Dir? then Settle(fs, p + [name], name, pushes - 1) else p
  }

  /** All directories on that way can be traversed, and there is none at its end. */
  ghost predicate Settles(fs: Fs, p: Path, name: string, pushes: nat)
    decreases pushes
  {
    p in fs && fs[p].Dir? ==> pushes > 0 && fs[p].open && Settles(fs, p + [name], name, pushes - 1)
  }

  lemma {:induction false} SettledIsNoDir(fs: Fs, p: Path, name: string, pushes: nat)
    requires Settles(fs, p, name, pushes)
    ensures Settle(fs, p, name, pushes) in fs ==> fs[Settle(fs, p, name, pushes)].File?
    decreases pushes
  {
    if p in fs && fs[p].Dir? {
      SettledIsNoDir(fs, p + [name], name, pushes - 1);
    }
  }

  lemma {:induction false} SettledIsBelow(fs: Fs, p: Path, name: string, pushes: nat)
    ensures p <= Settle(fs, p, name, pushes)
    decreases pushes
  {
    if pushes > 0 && p in fs && fs[p].Dir? {
      SettledIsBelow(fs, p + [name], name, pushes - 1);
    }
  }

  ghost predicate Same(fs: Fs, fs': Fs, p: Path) {
    (p in fs' <==> p in fs) && (p in fs ==> fs'[p] == fs[p])
  }

  ghost predicate SameBelow(fs: Fs, fs': Fs, t: Path) {
    forall p {:trigger Same(fs, fs', p)} :: t <= p ==> Same(fs, fs', p)
  }

  lemma {:induction false} SettlesSame(fs: Fs, fs': Fs, p: Path, name: string, pushes: nat)
    requires SameBelow(fs, fs', p)
    ensures Settle(fs', p, name, pushes) == Settle(fs, p, name, pushes)
    ensures Settles(fs', p, name, pushes) <==> Settles(fs, p, name, pushes)
    decreases pushes
  {
    assert p <= p && Same(fs, fs', p);
    if pushes == 0 {
    } else {
      SettlesSame(fs, fs', p + [name], name, pushes - 1);
    }
  }

  lemma {:induction false} JoinSnoc(names: seq<string>, name: string)
    requires names != []
    ensures Join(names + [name]) == Join(names) + "/" + name
  {
    if |names| == 1 {
      assert (names + [name])[1..] == [name];
    } else {
      assert (names + [name])[1..] == names[1..] + [name];
      JoinSnoc(names[1..], name);
    }
  }

  lemma {:induction false} LastOfJoin(names: seq<string>)
    requires names != [] && AreNames(names)
    ensures Join(names) != "" && !EndsWithSeparator(Join(names))
  {
    assert IsName(names[0]);
    if |names| == 1 {
      assert Join(names)[|Join(names)| - 1] in names[0];
    } else {
      assert forall i :: 0 <= i < |names[1..]| ==> names[1..][i] == names[i + 1];
      LastOfJoin(names[1..]);
    }
  }

  /** A name that is appended to the destination of a directory makes the destination of an entry of it. */
  lemma PushToDestination(stem: string, r: Path, name: string)
    requires AreNames(r) && IsName(name) && (stem != "" || r != [])
    ensures Push(DestinationOf(stem, r), name) == DestinationOf(stem, r + [name])
    ensures AreNames(r + [name])
  {
    assert !IsAbsolute(name) by {
      assert name[0] in name;
    }
    if r == [] {
      assert r + [name] == [name];
    } else {
      JoinSnoc(r, name);
      LastOfJoin(r);
    }
  }

  lemma LeadsFurther(fs: Fs, cwd: Path, stem: string, t: Path, r: Path, name: string)
    requires Leads(fs, cwd, stem, t, r) && fs[t + Init(r)].open
    requires IsName(name) && t + r in fs && fs[t + r].Dir?
    ensures Leads(fs, cwd, stem, t, r + [name])
  {
    hide Target;
    var below := r + [name];
    assert Init(below) == r;
    forall k | 0 <= k < |r| ensures t + r[..k] in fs && fs[t + r[..k]] == Dir(true) {
      if k < |Init(r)| {
        assert r[..k] == Init(r)[..k];
      } else {
        assert r[..k] == Init(r);
      }
    }
  }

  lemma WriteFileAt(fs: Fs, cwd: Path, stem: string, t: Path, r: Path, content: Bytes)
    requires Leads(fs, cwd, stem, t, r)
    ensures
      WriteFile(fs, cwd, DestinationOf(stem, r), content) ==
        if !fs[t + Init(r)].open then Err(PermissionDenied)
        else if t + r in fs && fs[t + r].Dir? then Err(IsADirectory)
        else Ok(fs[t + r := File(content)])
  {
    LeadsTo(fs, cwd, stem, t, r);
    hide Look, Split, NewEntry, DestinationOf, Leads;
  }

  lemma StatAt(fs: Fs, cwd: Path, stem: string, t: Path, r: Path)
    requires Leads(fs, cwd, stem, t, r)
    ensures
      Stat(fs, cwd, DestinationOf(stem, r)) ==
        if !fs[t + Init(r)].open then Err(PermissionDenied)
        else if t + r in fs then Ok(fs[t + r])
        else Err(NotFound)
  {
    LeadsTo(fs, cwd, stem, t, r);
    hide Look, Split, NewEntry, DestinationOf, Leads;
  }

  /** A file that arrives for an entry settles there, or one level below. */
  lemma CreateAt(fs: Fs, cwd: Path, stem: string, t: Path, r: Path, name: string, content: Bytes)
    requires Leads(fs, cwd, stem, t, r) && IsName(name)
    ensures
      var created := CreateOrTruncate(fs, cwd, DestinationOf(stem, r), name, content);
      if fs[t + Init(r)].open && Settles(fs, t + r, name, 1)
        then created == Ok(fs[Settle(fs, t + r, name, 1) := File(content)])
      else created.Err?
  {
    hide Leads, DestinationOf, WriteFile, Target, Push, Stat;
    StatAt(fs, cwd, stem, t, r);
    WriteFileAt(fs, cwd, stem, t, r, content);
    if IsDir(fs, cwd, DestinationOf(stem, r)) {
      LeadsToNames(fs, cwd, stem, t, r);
      LeadsFurther(fs, cwd, stem, t, r, name);
      PushToDestination(stem, r, name);
      assert t + (r + [name]) == t + r + [name] && Init(r + [name]) == r;
      WriteFileAt(fs, cwd, stem, t, r + [name], content);
    }
  }

  lemma LeadsToNames(fs: Fs, cwd: Path, stem: string, t: Path, r: Path)
    requires Leads(fs, cwd, stem, t, r)
    ensures r != [] && AreNames(r) && t + Init(r) in fs && fs[t + Init(r)].Dir?
  {
  }

  lemma AppendsNameAt(fs: Fs, cwd: Path, stem: string, t: Path, r: Path)
    requires Leads(fs, cwd, stem, t, r)
    ensures
      var appends := AppendsName(fs, cwd, DestinationOf(stem, r));
      if !fs[t + Init(r)].open then appends != Ok(true) else appends == Ok(t + r in fs && fs[t + r].Dir?)
  {
    LeadsTo(fs, cwd, stem, t, r);
    NameEndsPath(DestinationOf(stem, r));
    StatAt(fs, cwd, stem, t, r);
    if fs[t + Init(r)].open {
      ParentFound(fs, cwd, stem, t, r);
    }
    hide Look, Split, NewEntry, DestinationOf, Leads, ParentIsDir, EndsWithSeparator, Stat;
  }

  lemma SettlesOnce(fs: Fs, p: Path, name: string, pushes: nat)
    requires pushes > 0 && p in fs && fs[p].Dir?
    ensures Settle(fs, p, name, pushes) == Settle(fs, p + [name], name, pushes - 1)
    ensures Settles(fs, p, name, pushes) <==> fs[p].open && Settles(fs, p + [name], name, pushes - 1)
  {
  }

  lemma SettlesHere(fs: Fs, p: Path, name: string, pushes: nat)
    requires !(p in fs && fs[p].Dir?)
    ensures Settle(fs, p, name, pushes) == p && Settles(fs, p, name, pushes)
  {
  }

  /**
   A file that is put to an entry settles there, or one or two levels below: the
   server appends its name to a directory, and so does opening the file.
   */
  lemma PutFileAt(fs: Fs, cwd: Path, stem: string, t: Path, r: Path, name: string, content: Bytes)
    requires Leads(fs, cwd, stem, t, r) && IsName(name)
    ensures
      var put := PutFile(fs, cwd, DestinationOf(stem, r), name, content);
      if fs[t + Init(r)].open && Settles(fs, t + r, name, 2)
        then put == Ok(fs[Settle(fs, t + r, name, 2) := File(content)])
      else put.Err?
  {
    hide Leads, DestinationOf, AppendsName, CreateOrTruncate, Push, Settle, Settles, IsName;
    LeadsToNames(fs, cwd, stem, t, r);
    AppendsNameAt(fs, cwd, stem, t, r);
    CreateAt(fs, cwd, stem, t, r, name, content);
    if fs[t + Init(r)].open && t + r in fs && fs[t + r].Dir? {
      SettlesOnce(fs, t + r, name, 2);
      LeadsFurther(fs, cwd, stem, t, r, name);
      PushToDestination(stem, r, name);
      assert t + (r + [name]) == t + r + [name] && Init(r + [name]) == r;
      CreateAt(fs, cwd, stem, t, r + [name], name, content);
    } else if !(t + r in fs && fs[t + r].Dir?) {
      SettlesHere(fs, t + r, name, 1);
      SettlesHere(fs, t + r, name, 2);
    }
  }

  /** The working directory as a destination, named by nothing or by a dot. */
  lemma HereIsTarget(fs: Fs, cwd: Path, destination: string, name: string)
    requires destination == "" || destination == "."
    requires cwd in fs && fs[cwd] == Dir(true) && IsName(name)
    ensures Leads(fs, cwd, destination, cwd, [name]) && Push(destination, name) == DestinationOf(destination, [name])
  {
    SplitName(".");
    NoNames();
    assert Init([name]) == [] && cwd + [] == cwd && AreNames([name]);
    assert name[0] in name;
    if destination == "" {
      assert DropTrailing([]) == [];
    } else {
      LookNothing(fs, cwd);
      assert BaseParts(".") == ["."] && Init(["."]) == [];
    }
  }

  lemma NoNames()
    ensures AreNames([])
  {
  }

  /** What is put there goes by its name into the working directory, if that lets it through. */
  lemma PutFileHere(fs: Fs, cwd: Path, destination: string, name: string, content: Bytes)
    requires destination == "" || destination == "."
    requires cwd in fs && fs[cwd].Dir? && IsName(name)
    ensures
      var put := PutFile(fs, cwd, destination, name, content);
      if fs[cwd].open && Settles(fs, cwd + [name], name, 1)
      then put == Ok(fs[Settle(fs, cwd + [name], name, 1) := File(content)])
      else put.Err?
  {
    if fs[cwd].open {
      HereIsTarget(fs, cwd, destination, name);
      assert Init([name]) == [] && cwd + [] == cwd;
      hide CreateOrTruncate, Settles, Settle, DestinationOf, Push, Leads;
      CreateAt(fs, cwd, destination, cwd, [name], name, content);
    } else {
      ClosedHere(fs, cwd, destination, name, content);
    }
  }

  lemma ClosedHere(fs: Fs, cwd: Path, destination: string, name: string, content: Bytes)
    requires destination == "" || destination == "."
    requires cwd in fs && fs[cwd] == Dir(false) && IsName(name)
    ensures PutFile(fs, cwd, destination, name, content).Err?
  {
    var text := Push(destination, name);
    assert name[0] in name;
    SplitName(name);
    if destination == "." {
      SplitName(".");
      assert text == "." + "/" + name;
      SplitAtSeparator(".", name);
      assert Split(text) == [".", name];
    }
    assert Split(text) != [] && Start(cwd, text) == cwd && text != "";
    assert Look(fs, cwd, Split(text)) == Err(PermissionDenied) by {
      ClosedLook(fs, cwd, Split(text));
    }
    hide Split, Push, Look;
  }

  lemma ClosedLook(fs: Fs, p: Path, parts: seq<string>)
    requires p in fs && fs[p] == Dir(false) && parts != [] && parts[0] != ""
    ensures Look(fs, p, parts) == Err(PermissionDenied)
  {
  }

  // --------------------------------------------------------- requests at the root

  /** Directories only below directories. */
  ghost predicate IsFs(fs: Fs) {
    forall p {:trigger InDirectory(fs, p)} :: p in fs ==> InDirectory(fs, p)
  }

  ghost predicate InDirectory(fs: Fs, p: Path) {
    p != [] ==> Init(p) in fs && fs[Init(p)].Dir?
  }

  lemma {:induction false} DropTrailingEnds(parts: seq<string>)
    ensures DropTrailing(parts) != [] ==> Last(DropTrailing(parts)) != ""
  {
    if parts != [] && Last(parts) == "" {
      DropTrailingEnds(Init(parts));
    }
  }

  lemma DropTrailingEmpty(parts: seq<string>)
    ensures DropTrailing(parts + [""]) == DropTrailing(parts)
  {
    assert Init(parts + [""]) == parts;
  }

  /** A target that is not there yet is a new name in a directory. */
  lemma AbsentTarget(fs: Fs, cwd: Path, stem: string, t: Path)
    requires IsFs(fs) && cwd in fs && [] in fs && stem != ""
    requires Target(fs, cwd, stem) == Some(t) && t !in fs
    ensures
      var parts := DropTrailing(BaseParts(stem));
      parts != [] && IsName(Last(parts)) && NewEntry(fs, Start(cwd, stem), parts) == Ok(t)
  {
    hide Look, Split;
    var parts := DropTrailing(BaseParts(stem));
    DropTrailingEnds(BaseParts(stem));
    PartsHaveNoSeparator(stem);
    if EndsWithSeparator(stem) {
      PartsHaveNoSeparator(stem[..|stem| - 1]);
    }
    assert parts != [];
    assert Last(parts) == BaseParts(stem)[|parts| - 1];
    assert InDirectory(fs, Look(fs, Start(cwd, stem), Init(parts)).value);
  }

  /** The root is made, or is there: for it the destination ends in a separator. */
  lemma MakeDirectoryAtRoot(fs: Fs, cwd: Path, stem: string, t: Path)
    requires IsFs(fs) && cwd in fs && [] in fs && stem != "" && Target(fs, cwd, stem) == Some(t)
    ensures
      var made := MakeDirectory(fs, cwd, DestinationOf(stem, []));
      if t !in fs then made == Ok(fs[t := Dir(true)])
      else if fs[t].Dir? then made == Ok(fs)
      else made.Err?
  {
    var dest := DestinationOf(stem, []);
    var at := Start(cwd, stem);
    var parts := DropTrailing(BaseParts(stem));
    DestinationParts(cwd, stem, []);
    DropTrailingEmpty(BaseParts(stem));
    RootLook(fs, cwd, stem, t);
    if t !in fs {
      AbsentTarget(fs, cwd, stem, t);
    } else if fs[t].File? {
      RootIsFile(fs, cwd, stem, t);
    }
    hide Look, Split, NewEntry, DestinationOf, Target, BaseParts, DropTrailing;
  }

  lemma RootLook(fs: Fs, cwd: Path, stem: string, t: Path)
    requires IsFs(fs) && cwd in fs && [] in fs && stem != "" && Target(fs, cwd, stem) == Some(t)
    ensures
      var r := Look(fs, Start(cwd, stem), BaseParts(stem) + [""]);
      if t in fs && fs[t].Dir? then r == Ok(t) else r.Err?
  {
    hide Look, BaseParts;
    var at, parts := Start(cwd, stem), DropTrailing(BaseParts(stem));
    if t in fs && fs[t].Dir? {
      BaseFound(fs, cwd, stem, t);
      LookAppend(fs, at, BaseParts(stem), [""]);
      LookOne(fs, t, "");
    } else if Look(fs, at, BaseParts(stem) + [""]).Ok? {
      LookAppend(fs, at, BaseParts(stem), [""]);
      var p := Look(fs, at, BaseParts(stem)).value;
      LookOne(fs, p, "");
      LookWithoutTrailing(fs, at, BaseParts(stem));
      TargetIsFound(fs, cwd, stem, t, p);
    }
  }

  lemma TargetIsFound(fs: Fs, cwd: Path, stem: string, t: Path, p: Path)
    requires Target(fs, cwd, stem) == Some(t) && Look(fs, Start(cwd, stem), DropTrailing(BaseParts(stem))) == Ok(p)
    ensures p == t
  {
    hide Look, BaseParts;
    var at, parts := Start(cwd, stem), DropTrailing(BaseParts(stem));
    if parts == [] {
      LookNothing(fs, at);
    } else {
      LookSnoc(fs, at, parts);
      LookOne(fs, Look(fs, at, Init(parts)).value, Last(parts));
    }
  }

  lemma RootIsFile(fs: Fs, cwd: Path, stem: string, t: Path)
    requires IsFs(fs) && cwd in fs && [] in fs && stem != "" && Target(fs, cwd, stem) == Some(t) && t in fs
    ensures
      var parts := DropTrailing(BaseParts(stem));
      parts != [] && NewEntry(fs, Start(cwd, stem), parts).Ok? ==> NewEntry(fs, Start(cwd, stem), parts).value in fs
  {
    hide Look, BaseParts;
  }

  // -------------------------------------------------------------- no way to the root

  /** Where the text of a destination leads nowhere, nothing below it is found. */
  lemma NothingWithoutTarget(fs: Fs, cwd: Path, stem: string, below: seq<string>)
    requires Target(fs, cwd, stem) == None && below != []
    ensures Look(fs, Start(cwd, stem), BaseParts(stem) + below).Err?
  {
    hide Look, BaseParts;
    var at, parts := Start(cwd, stem), DropTrailing(BaseParts(stem));
    if Look(fs, at, BaseParts(stem) + below).Ok? {
      LookAppend(fs, at, BaseParts(stem), below);
      LookWithoutTrailing(fs, at, BaseParts(stem));
      DropTrailingEnds(BaseParts(stem));
      LookSnoc(fs, at, parts);
      LookOne(fs, Look(fs, at, Init(parts)).value, Last(parts));
    }
  }

  /** Then the root is refused. */
  lemma NoTargetRefuses(fs: Fs, cwd: Path, stem: string)
    requires Target(fs, cwd, stem) == None && stem != ""
    ensures MakeDirectory(fs, cwd, DestinationOf(stem, [])).Err?
  {
    DestinationParts(cwd, stem, []);
    DropTrailingEmpty(BaseParts(stem));
    NothingWithoutTarget(fs, cwd, stem, [""]);
    hide Look, Split, DestinationOf, BaseParts, IsAbsolute;
  }

  /** And no permissions are set, of whatever entry. */
  lemma NoTargetNoPermissions(fs: Fs, cwd: Path, stem: string, r: Path, open: bool)
    requires Target(fs, cwd, stem) == None && stem != "" && AreNames(r)
    ensures SetPermissions(fs, cwd, DestinationOf(stem, r), open).Err?
  {
    DestinationParts(cwd, stem, r);
    NothingWithoutTarget(fs, cwd, stem, if r == [] then [""] else r);
    hide Look, Split, DestinationOf, BaseParts, IsAbsolute, Target;
  }

  // ---------------------------------------------------------------- where targets lie

  lemma StemParts(stem: string)
    requires stem != ""
    ensures Split(stem) == BaseParts(stem) || Split(stem) == BaseParts(stem) + [""]
    ensures DropTrailing(Split(stem)) == DropTrailing(BaseParts(stem))
  {
    if EndsWithSeparator(stem) {
      var trunk := stem[..|stem| - 1];
      assert Split("") == [""];
      hide Split, DropTrailing;
      assert stem == trunk + "/" + "";
      SplitAtSeparator(trunk, "");
      DropTrailingEmpty(Split(trunk));
    } else {
      hide Split, DropTrailing;
    }
  }

  lemma AppendedText(cwd: Path, destination: string, name: string)
    requires destination != "" && name != "" && '/' !in name
    ensures
      var text := JoinRemote(destination, name);
      && BaseParts(text) == DropTrailing(BaseParts(text)) == BaseParts(destination) + [name]
      && Start(cwd, text) == Start(cwd, destination)
  {
    var text := JoinRemote(destination, name);
    SplitName(name);
    JoinRemoteParts(destination, name);
    assert text[|text| - 1] == name[|name| - 1] && name[|name| - 1] in name;
    hide Split;
    assert Last(BaseParts(destination) + [name]) == name;
  }

  /**
   A name appended to the text of an open directory leads to its entry of that
   name, there or not; ".." leads out of it.
   */
  lemma TargetInDirectory(fs: Fs, cwd: Path, destination: string, d: Path, name: string)
    requires Find(fs, cwd, destination) == Ok(d) && fs[d] == Dir(true)
    requires name != "" && '/' !in name
    ensures Target(fs, cwd, JoinRemote(destination, name)) == Some(Follow(d, name))
    ensures IsName(name) ==> Target(fs, cwd, JoinRemote(destination, name)) == Some(d + [name])
    ensures name == ".." && d != [] ==> Target(fs, cwd, JoinRemote(destination, name)) == Some(Init(d))
  {
    var at, parts, text := Start(cwd, destination), BaseParts(destination), JoinRemote(destination, name);
    StemParts(destination);
    AppendedText(cwd, destination, name);
    hide Look, Split, BaseParts, DropTrailing, JoinRemote, IsAbsolute;
    assert Init(parts + [name]) == parts && Last(parts + [name]) == name;
    if Split(destination) == parts + [""] {
      LookAppend(fs, at, parts, [""]);
      LookOne(fs, Look(fs, at, parts).value, "");
    }
  }

  /** The text of a directory is its own target. */
  lemma TargetIsDirectory(fs: Fs, cwd: Path, destination: string, d: Path)
    requires Find(fs, cwd, destination) == Ok(d) && fs[d].Dir?
    ensures Target(fs, cwd, destination) == Some(d)
  {
    var at, parts := Start(cwd, destination), DropTrailing(BaseParts(destination));
    StemParts(destination);
    DropTrailingEnds(BaseParts(destination));
    hide Look, Split, BaseParts;
    LookWithoutTrailing(fs, at, Split(destination));
    if parts == [] {
      LookNothing(fs, at);
    } else {
      LookSnoc(fs, at, parts);
      LookOne(fs, Look(fs, at, Init(parts)).value, Last(parts));
    }
  }
}
