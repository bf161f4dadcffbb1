/** The server's side of the requests that change its file system, and what a caller can rely on afterwards. */
module RemoteServer {
  import opened Wrappers
  import opened Numbers
  import opened Paths
  import opened RemoteFs
  import opened RemotePaths

  // ---------------------------------------------------------- what requests change

  /** At most one directory is new, and nothing else is different. */
  ghost predicate AtMostNewDirectory(fs: Fs, fs': Fs) {
    fs' == fs || exists p :: p !in fs && fs' == fs[p := Dir(true)]
  }

  /** One path holds the file, where there was none or a file, and nothing else is different. */
  ghost predicate OneFileWritten(fs: Fs, fs': Fs, content: Bytes) {
    exists p :: p in fs' && (p in fs ==> fs[p].File?) && fs' == fs[p := File(content)]
  }

  lemma NewEntryIsFound(fs: Fs, fs': Fs, at: Path, parts: seq<string>, n: Node)
    requires parts != [] && NewEntry(fs, at, parts).Ok? && NewEntry(fs, at, parts).value !in fs
    requires fs' == fs[NewEntry(fs, at, parts).value := n]
    ensures Look(fs', at, parts) == Ok(NewEntry(fs, at, parts).value)
  {
    hide Look;
    LookGrows(fs, fs', at, Init(parts));
    LookSnoc(fs', at, parts);
    LookOne(fs', Look(fs', at, Init(parts)).value, Last(parts));
  }

  /** After a directory request that succeeds, the name is a directory; only that directory can be new. */
  lemma MadeDirectoryIsThere(fs: Fs, cwd: Path, s: string)
    requires MakeDirectory(fs, cwd, s).Ok?
    ensures IsDir(MakeDirectory(fs, cwd, s).value, cwd, s)
    ensures AtMostNewDirectory(fs, MakeDirectory(fs, cwd, s).value)
  {
    hide Look, NewEntry, Split;
    if Stat(fs, cwd, s).Err? {
      var at, parts := Start(cwd, s), DropTrailing(Split(s));
      var fs' := MakeDirectory(fs, cwd, s).value;
      NewEntryIsFound(fs, fs', at, parts, Dir(true));
      LookWithTrailing(fs', at, Split(s));
    }
  }

  lemma WrittenFileIsThere(fs: Fs, cwd: Path, s: string, content: Bytes)
    requires WriteFile(fs, cwd, s, content).Ok?
    ensures
      var fs' := WriteFile(fs, cwd, s, content).value;
      Stat(fs', cwd, s) == Ok(File(content)) && OneFileWritten(fs, fs', content)
  {
    hide Look, NewEntry, Split;
    var fs' := WriteFile(fs, cwd, s, content).value;
    var at, parts := Start(cwd, s), Split(s);
    match Find(fs, cwd, s)
    case Ok(p) =>
      WriteFileGrows(fs, cwd, s, content);
      LookGrows(fs, fs', at, parts);
      assert p in fs' && fs' == fs[p := File(content)];
    case Err(_) =>
      NewEntryIsNew(fs, at, parts);
      NewEntryIsFound(fs, fs', at, parts, File(content));
      var p := NewEntry(fs, at, parts).value;
      assert p in fs' && fs' == fs[p := File(content)];
  }

  /** The destination itself, or the name below it: once, or twice when there is a directory of that name. */
  function Spots(destination: string, filename: string): seq<string> {
    [destination, Push(destination, filename), Push(Push(destination, filename), filename)]
  }

  /**
   After a put that succeeds, one of three texts leads to the file; only that
   file is different, and no directory is gone.
   */
  lemma PutFileIsThere(fs: Fs, cwd: Path, destination: string, filename: string, content: Bytes)
    requires PutFile(fs, cwd, destination, filename, content).Ok?
    ensures
      var fs' := PutFile(fs, cwd, destination, filename, content).value;
      && OneFileWritten(fs, fs', content)
      && exists i :: 0 <= i < 3 && Stat(fs', cwd, Spots(destination, filename)[i]) == Ok(File(content))
  {
    hide Look, NewEntry, Split, WriteFile, IsDir, Push, AppendsName, Stat, OneFileWritten;
    var appends := AppendsName(fs, cwd, destination).value;
    var path := if appends then Push(destination, filename) else destination;
    var pushed := IsDir(fs, cwd, path);
    var i := (if appends then 1 else 0) + if pushed then 1 else 0;
    assert Spots(destination, filename)[i] == if pushed then Push(path, filename) else path;
    WrittenFileIsThere(fs, cwd, if pushed then Push(path, filename) else path, content);
  }

  /** After a permission request that succeeds, only the permission of the directory found is different. */
  lemma PermissionIsSet(fs: Fs, cwd: Path, s: string, open: bool)
    ensures SetPermissions(fs, cwd, s, open).Ok? <==> IsDir(fs, cwd, s)
    ensures SetPermissions(fs, cwd, s, open).Ok? ==>
              SetPermissions(fs, cwd, s, open).value == fs[Find(fs, cwd, s).value := Dir(open)]
  {
    hide Look, Split;
  }

  // ------------------------------------------------------------------ the server

  class Server {
    var fs: Fs
    const cwd: Path

    constructor (fs: Fs, cwd: Path)
      ensures this.fs == fs && this.cwd == cwd
    {
      this.fs, this.cwd := fs, cwd;
    }

    method HandleMakeDirectory(dirName: string) returns (r: Result<(), Status>)
      modifies this`fs
      ensures
        match MakeDirectory(old(fs), cwd, dirName)
        case Ok(fs') => r == Ok(()) && fs == fs'
        case Err(e) => r == Err(e) && fs == old(fs)
      ensures r.Ok? ==> IsDir(fs, cwd, dirName) && AtMostNewDirectory(old(fs), fs)
    {
      hide AtMostNewDirectory, Look, Split, NewEntry;
      if MakeDirectory(fs, cwd, dirName).Ok? {
        MadeDirectoryIsThere(fs, cwd, dirName);
      }
      var meta := Stat(fs, cwd, dirName);
      if meta.Ok? {
        if meta.value.File? {
          return Err(ItIsAFile);
        }
      } else {
        var created := CreateDir(fs, cwd, dirName);
        if created.Err? {
          return Err(StatusOf(created.error));
        }
        fs := created.value;
      }
      r := Ok(());
    }

    /** `received` is what arrives of the payload; unless it is `complete`, reading or writing it fails there. */
    method HandlePut(destination: string, filename: string, received: Bytes, complete: bool)
      returns (r: Result<(), Status>)
      modifies this`fs
      ensures (fs, r) == PutRequest(old(fs), cwd, destination, filename, received, complete)
      ensures
        r.Ok? ==>
          && complete && OneFileWritten(old(fs), fs, received)
          && exists i :: 0 <= i < 3 && Stat(fs, cwd, Spots(destination, filename)[i]) == Ok(File(received))
      ensures fs != old(fs) ==> OneFileWritten(old(fs), fs, received)
    {
      hide Stat, IsDir, ParentIsDir, WriteFile, EndsWithSeparator, Push, OneFileWritten, Spots;
      if PutFile(fs, cwd, destination, filename, received).Ok? {
        PutFileIsThere(fs, cwd, destination, filename, received);
      }
      var path := destination;
      var appends: bool;
      if destination == "" || destination == "." {
        appends := true;
      } else {
        var meta := Stat(fs, cwd, destination);
        if meta.Ok? {
          appends := meta.value.Dir?;
        } else {
          if EndsWithSeparator(destination) {
            return Err(DirectoryDoesNotExist);
          }
          if !ParentIsDir(fs, cwd, destination) {
            return Err(DirectoryDoesNotExist);
          }
          appends := false;
        }
      }
      if appends {
        path := Push(path, filename);
      }
      var target := path;
      if IsDir(fs, cwd, path) {
        target := Push(target, filename);
      }
      var written := WriteFile(fs, cwd, target, received);
      if written.Err? {
        return Err(StatusOf(written.error));
      }
      fs := written.value;
      if !complete {
        return Err(IoError);
      }
      r := Ok(());
    }

    method HandleSetPermissions(path: string, open: bool) returns (r: Result<(), Status>)
      modifies this`fs
      ensures
        match SetPermissions(old(fs), cwd, path, open)
        case Ok(fs') => r == Ok(()) && fs == fs'
        case Err(e) => r == Err(e) && fs == old(fs)
      ensures r.Ok? <==> IsDir(old(fs), cwd, path)
      ensures r.Ok? ==> fs == old(fs)[Find(old(fs), cwd, path).value := Dir(open)]
    {
      PermissionIsSet(fs, cwd, path, open);
      var found := Find(fs, cwd, path);
      if found.Err? {
        return Err(StatusOf(found.error));
      }
      if fs[found.value].File? {
        return Err(ItIsAFile);
      }
      fs := fs[found.value := Dir(open)];
      r := Ok(());
    }
  }
}
