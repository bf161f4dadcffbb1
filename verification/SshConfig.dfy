/**
 The OpenSSH-style configuration language: lines, host blocks and nested
 includes. A file system is a map from name to lines, and the resolution of
 an include argument to file names is a parameter.
 */
module SshConfig {
  import opened Wrappers
  import Tokenizer

  // -------------------------------------------------------------------- lines

  datatype Line =
    | EmptyLine
    | Host(args: seq<string>)
    | Match(args: seq<string>)
    | Include(args: seq<string>)
    | Generic(keyword: string, args: seq<string>)

  datatype LineError = BadQuoting | MissingArgument

  /** The characters with the Unicode property White_Space. */
  predicate WhiteSpace(c: char) {
    var n := c as int;
    0x09 <= n <= 0x0D || n == 0x20 || n == 0x85 || n == 0xA0 || n == 0x1680 || 0x2000 <= n <= 0x200A
    || n == 0x2028 || n == 0x2029 || n == 0x202F || n == 0x205F || n == 0x3000
  }

  /** There are twenty-five of them. */
  lemma WhiteSpaceIs(c: char)
    ensures WhiteSpace(c) <==>
            c in "\t\n\U{b}\U{c}\r \U{85}\U{a0}\U{1680}\U{2000}\U{2001}\U{2002}\U{2003}\U{2004}\U{2005}\U{2006}"
              + "\U{2007}\U{2008}\U{2009}\U{200a}\U{2028}\U{2029}\U{202f}\U{205f}\U{3000}"
  {
  }

  function TrimStart(s: string): string {
    if s != "" && WhiteSpace(s[0]) then TrimStart(s[1..]) else s
  }

  function TrimEnd(s: string): string {
    if s != "" && WhiteSpace(s[|s| - 1]) then TrimEnd(s[..|s| - 1]) else s
  }

  function Trim(s: string): string {
    TrimEnd(TrimStart(s))
  }

  predicate KeywordEnd(c: char) {
    c == ' ' || c == '\t' || c == '='
  }

  /** The length of the keyword: up to the first blank, tab or equals sign. */
  function KeywordLength(s: string): (n: nat)
    ensures n <= |s|
  {
    if s == "" || KeywordEnd(s[0]) then 0 else 1 + KeywordLength(s[1..])
  }

  function LowerCase(c: char): char {
    if 'A' <= c <= 'Z' then (c as int - 'A' as int + 'a' as int) as char else c
  }

  /** Lower case, without underscores and hyphens. */
  function Canonical(s: string): string {
    if s == "" then ""
    else if s[0] == '_' || s[0] == '-' then Canonical(s[1..])
    else [LowerCase(s[0])] + Canonical(s[1..])
  }

  lemma {:induction false} CanonicalIsIdempotent(s: string)
    ensures Canonical(Canonical(s)) == Canonical(s)
  {
    if s == "" {
    } else {
      CanonicalIsIdempotent(s[1..]);
    }
  }

  const FIELD_NAMES: seq<string> := [
    "rx", "tx", "rtt", "congestion", "initial_congestion_window", "port", "timeout", "udp_buffer",
    "packet_threshold", "time_threshold", "initial_mtu", "min_mtu", "max_mtu", "address_family", "ssh",
    "remote_qcp_binary", "ssh_options", "remote_port", "remote_user", "time_format", "ssh_config",
    "ssh_subsystem", "color", "tls_auth_type", "aes256", "io_buffer_size"]

  /** The field with this canonical name among `fields`, or the name itself. */
  function ConfigurationField(canonical: string, fields: seq<string>): string {
    if fields == [] then canonical
    else if Canonical(fields[0]) == canonical then fields[0]
    else ConfigurationField(canonical, fields[1..])
  }

  function ParseLine(text: string): Result<Line, LineError> {
    var line := Trim(text);
    var n := KeywordLength(line);
    if n == 0 then Ok(EmptyLine)
    else
      var keyword := Canonical(line[..n]);
      if keyword != "" && keyword[0] == '#' then Ok(EmptyLine)
      else
        match Tokenizer.Tokenize(if n < |line| then line[n + 1..] else "")
        case Err(_) => Err(BadQuoting)
        case Ok(args) =>
          if args == [] then Err(MissingArgument)
          else if keyword == "host" then Ok(Host(args))
          else if keyword == "match" then Ok(Match(args))
          else if keyword == "include" then Ok(Include(args))
          else Ok(Generic(ConfigurationField(keyword, FIELD_NAMES), args))
  }

  // ------------------------------------------------------------ host matching

  /** `*` stands for any text and `?` for any one character. */
  predicate WildMatch(pattern: string, text: string)
    decreases |pattern| + |text|
  {
    if pattern == "" then text == ""
    else if pattern[0] == '*' then WildMatch(pattern[1..], text) || (text != "" && WildMatch(pattern, text[1..]))
    else text != "" && (pattern[0] == '?' || pattern[0] == text[0]) && WildMatch(pattern[1..], text[1..])
  }

  predicate MatchOnePattern(host: string, pattern: string) {
    if pattern != "" && pattern[0] == '!' then !WildMatch(pattern[1..], host) else WildMatch(pattern, host)
  }

  /** Without a host only the pattern `*` itself matches. */
  predicate EvaluateHostMatch(host: Option<string>, args: seq<string>) {
    match host
    case Some(h) => exists arg :: arg in args && MatchOnePattern(h, arg)
    case None => "*" in args
  }

  lemma {:induction false} StarMatchesEverything(text: string)
    ensures WildMatch("*", text)
    decreases |text|
  {
    if text == "" {
    } else {
      StarMatchesEverything(text[1..]);
    }
  }

  lemma UnspecifiedHostMatchesLess(host: string, args: seq<string>)
    requires EvaluateHostMatch(None, args)
    ensures EvaluateHostMatch(Some(host), args)
  {
    StarMatchesEverything(host);
    assert MatchOnePattern(host, "*");
  }

  // ------------------------------------------------------------------ parsing

  datatype Setting = Setting(source: string, lineNumber: nat, args: seq<string>)

  datatype ParseState = ParseState(accepting: bool, data: map<string, Setting>)

  datatype Error =
    | AtLine(source: string, lineNumber: nat, error: LineError)
    | TooManyIncludes
    | NoSuchFile(name: string)
    | BadInclude(arg: string)

  /** The files, by name, and the resolution of include arguments to names. */
  datatype Library = Library(files: map<string, seq<string>>, resolve: string -> Option<seq<string>>)

  /** The host of interest, and where text comes from. */
  datatype Env = Env(host: Option<string>, library: Library)

  const INCLUDE_DEPTH_LIMIT: nat := 16

  /** The effect of a line that is not an include. The first accepted entry for a key wins. */
  function Apply(host: Option<string>, source: string, lineNumber: nat, line: Line, st: ParseState): ParseState {
    match line
    case Host(args) => st.(accepting := EvaluateHostMatch(host, args))
    case Generic(keyword, args) =>
      if st.accepting && keyword !in st.data
      then st.(data := st.data[keyword := Setting(source, lineNumber, args)])
      else st
    case _ => st
  }

  type Parsed = Result<ParseState, Error>

  function ParseFileInner(env: Env, source: string, lines: seq<string>, depth: nat, st: ParseState): Parsed
    decreases INCLUDE_DEPTH_LIMIT - depth, 3, 0
  {
    if depth >= INCLUDE_DEPTH_LIMIT then Err(TooManyIncludes) else ParseLines(env, source, lines, 0, depth, st)
  }

  function ParseLines(env: Env, source: string, lines: seq<string>, n: nat, depth: nat, st: ParseState): Parsed
    requires n <= |lines| && depth < INCLUDE_DEPTH_LIMIT
    decreases INCLUDE_DEPTH_LIMIT - depth, 2, |lines| - n
  {
    if n == |lines| then Ok(st)
    else
      match ParseLine(lines[n])
      case Err(e) => Err(AtLine(source, n + 1, e))
      case Ok(Include(args)) =>
        var st :- ParseIncludes(env, args, depth, st);
        ParseLines(env, source, lines, n + 1, depth, st)
      case Ok(line) => ParseLines(env, source, lines, n + 1, depth, Apply(env.host, source, n + 1, line, st))
  }

  function ParseIncludes(env: Env, args: seq<string>, depth: nat, st: ParseState): Parsed
    requires depth < INCLUDE_DEPTH_LIMIT
    decreases INCLUDE_DEPTH_LIMIT - depth, 1, |args|
  {
    if args == [] then Ok(st)
    else if env.library.resolve(args[0]).None? then Err(BadInclude(args[0]))
    else
      var st :- ParseFiles(env, env.library.resolve(args[0]).value, depth, st);
      ParseIncludes(env, args[1..], depth, st)
  }

  function ParseFiles(env: Env, files: seq<string>, depth: nat, st: ParseState): Parsed
    requires depth < INCLUDE_DEPTH_LIMIT
    decreases INCLUDE_DEPTH_LIMIT - depth, 0, |files|
  {
    if files == [] then Ok(st)
    else if files[0] !in env.library.files then Err(NoSuchFile(files[0]))
    else
      var st :- ParseFileInner(env, files[0], env.library.files[files[0]], depth + 1, st);
      ParseFiles(env, files[1..], depth, st)
  }

  /** The whole configuration of a named file: unqualified lines at its start are accepted. */
  function ParseFileFor(env: Env, name: string): Parsed {
    if name !in env.library.files then Err(NoSuchFile(name))
    else ParseFileInner(env, name, env.library.files[name], 0, ParseState(true, map[]))
  }

  // --------------------------------------------------------------- the parser

  /** The output of a parse, with the flag that all nested parsers share. */
  class Output {
    var accepting: bool
    var data: map<string, Setting>

    constructor ()
      ensures State() == ParseState(true, map[])
    {
      accepting, data := true, map[];
    }

    function State(): ParseState
      reads this
    {
      ParseState(accepting, data)
    }

    method TakeLine(host: Option<string>, source: string, lineNumber: nat, line: Line)
      requires !line.Include?
      modifies this
      ensures State() == Apply(host, source, lineNumber, line, old(State()))
    {
      match line {
        case Host(args) => accepting := EvaluateHostMatch(host, args);
        case Generic(keyword, args) =>
          if accepting && keyword !in data {
            data := data[keyword := Setting(source, lineNumber, args)];
          }
        case _ =>
      }
    }
  }

  /** One parser per file; an include runs another parser on the same output. */
  class Parser {
    var lineNumber: nat
    const source: string
    const lines: seq<string>

    constructor (source: string, lines: seq<string>)
      ensures this.source == source && this.lines == lines && lineNumber == 0
    {
      this.source, this.lines, lineNumber := source, lines, 0;
    }

    method Parse(env: Env, depth: nat, output: Output) returns (error: Option<Error>)
      requires lineNumber == 0
      modifies this, output
      ensures
        match ParseFileInner(env, source, lines, depth, old(output.State()))
        case Ok(st) => error == None && output.State() == st
        case Err(e) => error == Some(e)
      decreases INCLUDE_DEPTH_LIMIT - depth
    {
      if depth >= INCLUDE_DEPTH_LIMIT {
        return Some(TooManyIncludes);
      }
      ghost var whole := ParseFileInner(env, source, lines, depth, output.State());
      while lineNumber < |lines|
        invariant lineNumber <= |lines|
        invariant ParseLines(env, source, lines, lineNumber, depth, output.State()) == whole
      {
        var parsed := ParseLine(lines[lineNumber]);
        lineNumber := lineNumber + 1;
        if parsed.Err? {
          return Some(AtLine(source, lineNumber, parsed.error));
        }
        if parsed.value.Include? {
          var failed := ParseEach(env, parsed.value.args, depth, output);
          if failed.Some? {
            return failed;
          }
        } else {
          output.TakeLine(env.host, source, lineNumber, parsed.value);
        }
      }
      error := None;
    }

    method ParseEach(env: Env, args: seq<string>, depth: nat, output: Output) returns (error: Option<Error>)
      requires depth < INCLUDE_DEPTH_LIMIT
      modifies output
      ensures
        match ParseIncludes(env, args, depth, old(output.State()))
        case Ok(st) => error == None && output.State() == st
        case Err(e) => error == Some(e)
      decreases INCLUDE_DEPTH_LIMIT - depth, 0
    {
      ghost var whole := ParseIncludes(env, args, depth, output.State());
      var i := 0;
      while i < |args|
        invariant i <= |args|
        invariant ParseIncludes(env, args[i..], depth, output.State()) == whole
      {
        var files := env.library.resolve(args[i]);
        if files.None? {
          return Some(BadInclude(args[i]));
        }
        ghost var before, all := output.State(), ParseFiles(env, files.value, depth, output.State());
        var k := 0;
        while k < |files.value|
          invariant k <= |files.value|
          invariant ParseFiles(env, files.value[k..], depth, output.State()) == all
        {
          var f := files.value[k];
          if f !in env.library.files {
            return Some(NoSuchFile(f));
          }
          var parser := new Parser(f, env.library.files[f]);
          var failed := parser.Parse(env, depth + 1, output);
          if failed.Some? {
            return failed;
          }
          assert files.value[k..][1..] == files.value[k + 1..];
          k := k + 1;
        }
        assert args[i..][1..] == args[i + 1..];
        i := i + 1;
      }
      error := None;
    }
  }
}
