/**
 The file system of the remote end, and the three requests that change it:
 create a directory, put a file, set the permissions of a directory. Of the
 permissions, only whether a directory can be traversed is modelled.
 */
module RemoteFs {
  import opened Wrappers
  import opened Numbers
  import opened Paths

  /** Names from the root down. */
  type Path = seq<string>

  datatype Node = Dir(open: bool) | File(content: Bytes)

  type Fs = map<Path, Node>

  datatype FsError = NotFound | NotADirectory | IsADirectory | PermissionDenied | AlreadyExists

  datatype Status = FileNotFound | IncorrectPermissions | ItIsADirectory | ItIsAFile | DirectoryDoesNotExist | IoError

  function StatusOf(e: FsError): Status {
    match e
    case NotFound => FileNotFound
    case PermissionDenied => IncorrectPermissions
    case IsADirectory => ItIsADirectory
    case NotADirectory => IoError
    case AlreadyExists => IoError
  }

  // ----------------------------------------------------------------- resolution

  function Follow(at: Path, part: string): Path {
    if part == "." || part == "" then at
    else if part == ".." then (if at == [] then [] else Init(at))
    else at + [part]
  }

  /**
   Follows the parts of a path: a final separator asks for a directory, anything
   else for one that can be traversed.
   */
  function Look(fs: Fs, at: Path, parts: seq<string>): (r: Result<Path, FsError>)
    ensures r.Ok? ==> r.value in fs
    decreases |parts|
  {
    if at !in fs then Err(NotFound)
    else if parts == [] then Ok(at)
    else if fs[at].File? then Err(NotADirectory)
    else if parts[0] != "" && !fs[at].open then Err(PermissionDenied)
    else Look(fs, Follow(at, parts[0]), parts[1..])
  }

  function Start(cwd: Path, s: string): Path {
    if IsAbsolute(s) then [] else cwd
  }

  function Find(fs: Fs, cwd: Path, s: string): Result<Path, FsError> {
    if s == "" then Err(NotFound) else Look(fs, Start(cwd, s), Split(s))
  }

  function Stat(fs: Fs, cwd: Path, s: string): Result<Node, FsError> {
    var p :- Find(fs, cwd, s);
    Ok(fs[p])
  }

  predicate IsDir(fs: Fs, cwd: Path, s: string) {
    var n := Stat(fs, cwd, s);
    n.Ok? && n.value.Dir?
  }

  /** Where a new entry goes whose directory has to be there already. */
  function NewEntry(fs: Fs, at: Path, parts: seq<string>): (r: Result<Path, FsError>)
    requires parts != []
  {
    if Last(parts) == "" then Err(NotFound)
    else
      var p :- Look(fs, at, Init(parts));
      if fs[p].File? then Err(NotADirectory)
      else if !fs[p].open then Err(PermissionDenied)
      else if !IsName(Last(parts)) then Err(AlreadyExists)
      else Ok(p + [Last(parts)])
  }

  /** Without the empty parts at the end. */
  function DropTrailing(parts: seq<string>): (r: seq<string>)
    ensures r <= parts
  {
    if parts != [] && Last(parts) == "" then DropTrailing(Init(parts)) else parts
  }

  /** Without the empty parts and dots at the end. */
  function DropDots(parts: seq<string>): (r: seq<string>)
    ensures r <= parts
  {
    if parts != [] && (Last(parts) == "" || Last(parts) == ".") then DropDots(Init(parts)) else parts
  }

  // ---------------------------------------------------------------- system calls

  function CreateDirAt(fs: Fs, at: Path, parts: seq<string>): Result<Fs, FsError> {
    var parts := DropTrailing(parts);
    if parts == [] then Err(AlreadyExists)
    else
      var p :- NewEntry(fs, at, parts);
      if p in fs then Err(AlreadyExists) else Ok(fs[p := Dir(true)])
  }

  function CreateDir(fs: Fs, cwd: Path, s: string): Result<Fs, FsError> {
    if s == "" then Err(NotFound) else CreateDirAt(fs, Start(cwd, s), Split(s))
  }

  predicate IsDirAt(fs: Fs, at: Path, parts: seq<string>) {
    var p := Look(fs, at, parts);
    p.Ok? && fs[p.value].Dir?
  }

  /** A directory with all directories that lead to it; what was made stays if the rest fails. */
  function CreateAllAt(fs: Fs, at: Path, parts: seq<string>): (Fs, bool)
    decreases |parts|
  {
    var named := DropDots(parts);
    match CreateDirAt(fs, at, parts)
    case Ok(made) => (made, true)
    case Err(e) =>
      if e != NotFound then (fs, IsDirAt(fs, at, parts))
      else if named == [] then (fs, false)
      else
        var up := DropDots(Init(named));
        var (fs', ok) := if up == [] then (fs, true) else CreateAllAt(fs, at, up);
        if !ok then (fs', false) else MakeOrFind(fs', at, parts)
  }

  function MakeOrFind(fs: Fs, at: Path, parts: seq<string>): (Fs, bool) {
    match CreateDirAt(fs, at, parts)
    case Ok(made) => (made, true)
    case Err(_) => (fs, IsDirAt(fs, at, parts))
  }

  function CreateAll(fs: Fs, cwd: Path, s: string): (Fs, bool) {
    if s == "" then (fs, true) else CreateAllAt(fs, Start(cwd, s), Split(s))
  }

  /** Opens for writing, creating or truncating, and writes the content. */
  function WriteFile(fs: Fs, cwd: Path, s: string, content: Bytes): Result<Fs, FsError> {
    if s == "" then Err(NotFound)
    else
      match Find(fs, cwd, s)
      case Ok(p) => if fs[p].Dir? then Err(IsADirectory) else Ok(fs[p := File(content)])
      case Err(NotFound) =>
        var p :- NewEntry(fs, Start(cwd, s), Split(s));
        Ok(fs[p := File(content)])
      case Err(e) => Err(e)
  }

  // -------------------------------------------------------------------- requests

  function MakeDirectory(fs: Fs, cwd: Path, s: string): Result<Fs, Status> {
    match Stat(fs, cwd, s)
    case Ok(File(_)) => Err(ItIsAFile)
    case Ok(Dir(_)) => Ok(fs)
    case Err(_) =>
      match CreateDir(fs, cwd, s)
      case Ok(fs') => Ok(fs')
      case Err(e) => Err(StatusOf(e))
  }

  /** The directory part of a path, empty for a lone name. */
  function ParentParts(s: string): seq<string> {
    var parts := DropDots(Split(s));
    if parts == [] then [] else DropDots(Init(parts))
  }

  predicate ParentIsDir(fs: Fs, cwd: Path, s: string) {
    var parts := ParentParts(s);
    var p := Look(fs, Start(cwd, s), if parts == [] && !IsAbsolute(s) then ["."] else parts);
    p.Ok? && fs[p.value].Dir?
  }

  /** Whether the name of the file from its header has to be appended to the destination. */
  function AppendsName(fs: Fs, cwd: Path, destination: string): Result<bool, Status> {
    if destination == "" || destination == "." then Ok(true)
    else
      match Stat(fs, cwd, destination)
      case Ok(n) => Ok(n.Dir?)
      case Err(_) =>
        if EndsWithSeparator(destination) then Err(DirectoryDoesNotExist)
        else if ParentIsDir(fs, cwd, destination) then Ok(false)
        else Err(DirectoryDoesNotExist)
  }

  /** Creates or truncates; a directory gets the file put into it. */
  function CreateOrTruncate(fs: Fs, cwd: Path, path: string, filename: string, content: Bytes): Result<Fs, FsError> {
    WriteFile(fs, cwd, if IsDir(fs, cwd, path) then Push(path, filename) else path, content)
  }

  function PutFile(fs: Fs, cwd: Path, destination: string, filename: string, content: Bytes): Result<Fs, Status> {
    var appends :- AppendsName(fs, cwd, destination);
    match CreateOrTruncate(fs, cwd, if appends then Push(destination, filename) else destination, filename, content)
    case Ok(fs') => Ok(fs')
    case Err(e) => Err(StatusOf(e))
  }

  /** The whole request. A payload that fails after the file was opened leaves what has arrived of it. */
  function PutRequest(fs: Fs, cwd: Path, destination: string, filename: string, received: Bytes, complete: bool)
    : (Fs, Result<(), Status>)
  {
    match PutFile(fs, cwd, destination, filename, received)
    case Err(e) => (fs, Err(e))
    case Ok(fs') => (fs', if complete then Ok(()) else Err(IoError))
  }

  function SetPermissions(fs: Fs, cwd: Path, s: string, open: bool): Result<Fs, Status> {
    match Find(fs, cwd, s)
    case Err(e) => Err(StatusOf(e))
    case Ok(p) => if fs[p].File? then Err(ItIsAFile) else Ok(fs[p := Dir(open)])
  }
}
