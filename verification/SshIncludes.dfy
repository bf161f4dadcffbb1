/**
 What nested includes mean: the same as one pass over the text with every
 include spliced in place; when a parse succeeds; which entry wins.
 */
module SshIncludes {
  import opened Wrappers
  import opened SshConfig

  // ----------------------------------------------------------------- splicing

  /** A line of the spliced text with its provenance, or the point where splicing failed. */
  datatype Item = Text(source: string, lineNumber: nat, text: string) | Broken(error: Error)

  function SpliceFile(lib: Library, source: string, lines: seq<string>, depth: nat): seq<Item>
    decreases INCLUDE_DEPTH_LIMIT - depth, 3, 0
  {
    if depth >= INCLUDE_DEPTH_LIMIT then [Broken(TooManyIncludes)] else SpliceLines(lib, source, lines, 0, depth)
  }

  function SpliceLines(lib: Library, source: string, lines: seq<string>, n: nat, depth: nat): seq<Item>
    requires n <= |lines| && depth < INCLUDE_DEPTH_LIMIT
    decreases INCLUDE_DEPTH_LIMIT - depth, 2, |lines| - n
  {
    if n == |lines| then []
    else SpliceLine(lib, source, lines, n, depth) + SpliceLines(lib, source, lines, n + 1, depth)
  }

  function SpliceLine(lib: Library, source: string, lines: seq<string>, n: nat, depth: nat): seq<Item>
    requires n < |lines| && depth < INCLUDE_DEPTH_LIMIT
    decreases INCLUDE_DEPTH_LIMIT - depth, 2, 0
  {
    match ParseLine(lines[n])
    case Ok(Include(args)) => SpliceIncludes(lib, args, depth)
    case _ => [Text(source, n + 1, lines[n])]
  }

  function SpliceIncludes(lib: Library, args: seq<string>, depth: nat): seq<Item>
    requires depth < INCLUDE_DEPTH_LIMIT
    decreases INCLUDE_DEPTH_LIMIT - depth, 1, |args|
  {
    if args == [] then []
    else
      (match lib.resolve(args[0])
       case None => [Broken(BadInclude(args[0]))]
       case Some(files) => SpliceFiles(lib, files, depth))
      + SpliceIncludes(lib, args[1..], depth)
  }

  function SpliceFiles(lib: Library, files: seq<string>, depth: nat): seq<Item>
    requires depth < INCLUDE_DEPTH_LIMIT
    decreases INCLUDE_DEPTH_LIMIT - depth, 0, |files|
  {
    if files == [] then []
    else
      (if files[0] in lib.files then SpliceFile(lib, files[0], lib.files[files[0]], depth + 1)
       else [Broken(NoSuchFile(files[0]))])
      + SpliceFiles(lib, files[1..], depth)
  }

  /** One pass over flat text: no recursion, no files. */
  function Fold(host: Option<string>, items: seq<Item>, st: ParseState): Parsed {
    if items == [] then Ok(st)
    else
      var st :- FoldOne(host, items[0], st);
      Fold(host, items[1..], st)
  }

  function FoldOne(host: Option<string>, item: Item, st: ParseState): Parsed {
    match item
    case Broken(e) => Err(e)
    case Text(source, lineNumber, text) =>
      match ParseLine(text)
      case Err(e) => Err(AtLine(source, lineNumber, e))
      case Ok(line) => Ok(Apply(host, source, lineNumber, line, st))
  }

  lemma {:induction false} FoldAppend(host: Option<string>, a: seq<Item>, b: seq<Item>, st: ParseState)
    ensures Fold(host, a + b, st) ==
            match Fold(host, a, st)
            case Err(e) => Err(e)
            case Ok(st') => Fold(host, b, st')
  {
    if a == [] {
      assert a + b == b;
    } else {
      assert (a + b)[1..] == a[1..] + b;
      var next := FoldOne(host, a[0], st);
      if next.Ok? {
        FoldAppend(host, a[1..], b, next.value);
      }
    }
  }

  // --------------------------------------------------------------- flattening

  /**
   Parsing a file, with its nested includes and the flag they share, is one
   pass over the spliced text: same settings with the same provenance, same
   final flag, same first error. Splicing looks at neither host nor flag, so
   includes in a block that does not match are processed all the same.
   */
  lemma {:induction false} ParsingIsFolding(env: Env, source: string, lines: seq<string>, depth: nat, st: ParseState)
    ensures ParseFileInner(env, source, lines, depth, st) ==
            Fold(env.host, SpliceFile(env.library, source, lines, depth), st)
    decreases INCLUDE_DEPTH_LIMIT - depth, 3, 0
  {
    hide ParseLines, SpliceLines;
    if depth < INCLUDE_DEPTH_LIMIT {
      LinesAreFolded(env, source, lines, 0, depth, st);
    }
  }

  lemma {:induction false} LinesAreFolded(env: Env, source: string, lines: seq<string>, n: nat, depth: nat,
                                          st: ParseState)
    requires n <= |lines| && depth < INCLUDE_DEPTH_LIMIT
    ensures ParseLines(env, source, lines, n, depth, st) ==
            Fold(env.host, SpliceLines(env.library, source, lines, n, depth), st)
    decreases INCLUDE_DEPTH_LIMIT - depth, 2, |lines| - n
  {
    hide ParseLine, Apply, ParseIncludes, SpliceIncludes;
    if n == |lines| {
    } else {
      var head, tail := SpliceLine(env.library, source, lines, n, depth),
        SpliceLines(env.library, source, lines, n + 1, depth);
      FoldAppend(env.host, head, tail, st);
      match ParseLine(lines[n]) {
        case Ok(Include(args)) =>
          IncludesAreFolded(env, args, depth, st);
          var st' := ParseIncludes(env, args, depth, st);
          if st'.Ok? {
            LinesAreFolded(env, source, lines, n + 1, depth, st'.value);
          }
        case Ok(line) =>
          assert Fold(env.host, head, st) == Ok(Apply(env.host, source, n + 1, line, st));
          LinesAreFolded(env, source, lines, n + 1, depth, Apply(env.host, source, n + 1, line, st));
        case Err(e) =>
          assert Fold(env.host, head, st) == Err(AtLine(source, n + 1, e));
      }
    }
  }

  lemma {:induction false} IncludesAreFolded(env: Env, args: seq<string>, depth: nat, st: ParseState)
    requires depth < INCLUDE_DEPTH_LIMIT
    ensures ParseIncludes(env, args, depth, st) == Fold(env.host, SpliceIncludes(env.library, args, depth), st)
    decreases INCLUDE_DEPTH_LIMIT - depth, 1, |args|
  {
    hide ParseFiles, SpliceFiles;
    if args == [] {
    } else {
      var rest := SpliceIncludes(env.library, args[1..], depth);
      match env.library.resolve(args[0]) {
        case None =>
          FoldAppend(env.host, [Broken(BadInclude(args[0]))], rest, st);
        case Some(files) =>
          FoldAppend(env.host, SpliceFiles(env.library, files, depth), rest, st);
          FilesAreFolded(env, files, depth, st);
          var st' := ParseFiles(env, files, depth, st);
          if st'.Ok? {
            IncludesAreFolded(env, args[1..], depth, st'.value);
          }
      }
    }
  }

  lemma {:induction false} FilesAreFolded(env: Env, files: seq<string>, depth: nat, st: ParseState)
    requires depth < INCLUDE_DEPTH_LIMIT
    ensures ParseFiles(env, files, depth, st) == Fold(env.host, SpliceFiles(env.library, files, depth), st)
    decreases INCLUDE_DEPTH_LIMIT - depth, 0, |files|
  {
    hide ParseFileInner, SpliceFile;
    if files == [] {
    } else {
      var rest := SpliceFiles(env.library, files[1..], depth);
      if files[0] !in env.library.files {
        FoldAppend(env.host, [Broken(NoSuchFile(files[0]))], rest, st);
      } else {
        var lines := env.library.files[files[0]];
        FoldAppend(env.host, SpliceFile(env.library, files[0], lines, depth + 1), rest, st);
        ParsingIsFolding(env, files[0], lines, depth + 1, st);
        var st' := ParseFileInner(env, files[0], lines, depth + 1, st);
        if st'.Ok? {
          FilesAreFolded(env, files[1..], depth, st'.value);
        }
      }
    }
  }

  // ------------------------------------------------------- when parsing succeeds

  predicate Good(item: Item) {
    item.Text? && ParseLine(item.text).Ok?
  }

  predicate AllGood(items: seq<Item>) {
    forall i :: 0 <= i < |items| ==> Good(items[i])
  }

  lemma {:induction false} FoldSucceeds(host: Option<string>, items: seq<Item>, st: ParseState)
    ensures Fold(host, items, st).Ok? <==> AllGood(items)
  {
    if items == [] {
    } else {
      var next := FoldOne(host, items[0], st);
      if next.Ok? {
        FoldSucceeds(host, items[1..], next.value);
        assert forall i :: 0 < i < |items| ==> items[i] == items[1..][i - 1];
        if AllGood(items[1..]) {
          forall i | 0 <= i < |items| ensures Good(items[i]) {
            if i > 0 { assert Good(items[1..][i - 1]); }
          }
        } else {
          var i :| 0 <= i < |items[1..]| && !Good(items[1..][i]);
          assert !Good(items[i + 1]);
        }
      } else {
        assert !Good(items[0]);
      }
    }
  }

  /** A file names another in an include argument. */
  ghost predicate IncludesFile(lib: Library, f: string, g: string) {
    f in lib.files && exists n, k, j :: NamesAt(lib, lib.files[f], n, k, j, g)
  }

  /** The `j`th file that the `k`th argument of the include at line `n` resolves to. */
  ghost predicate NamesAt(lib: Library, lines: seq<string>, n: int, k: int, j: int, g: string) {
    && 0 <= n < |lines| && ParseLine(lines[n]).Ok? && ParseLine(lines[n]).value.Include?
    && var args := ParseLine(lines[n]).value.args;
       0 <= k < |args| && lib.resolve(args[k]).Some?
       && 0 <= j < |lib.resolve(args[k]).value| && lib.resolve(args[k]).value[j] == g
  }

  /** The file exists, its lines parse, and its include arguments can be resolved. */
  ghost predicate Sound(lib: Library, f: string) {
    f in lib.files && forall n :: 0 <= n < |lib.files[f]| ==> SoundLine(lib, lib.files[f][n])
  }

  ghost predicate SoundLine(lib: Library, line: string) {
    match ParseLine(line)
    case Err(_) => false
    case Ok(Include(args)) => forall k :: 0 <= k < |args| ==> lib.resolve(args[k]).Some?
    case Ok(_) => true
  }

  /** Each file includes the next. */
  ghost predicate IsChain(lib: Library, chain: seq<string>) {
    chain != [] && forall i :: 0 <= i < |chain| - 1 ==> IncludesFile(lib, chain[i], chain[i + 1])
  }

  /** A file splices without fault at a depth: it exists, and its text does. */
  ghost predicate Splices(lib: Library, f: string, depth: nat) {
    f in lib.files && AllGood(SpliceFile(lib, f, lib.files[f], depth))
  }

  lemma AllGoodAppend(a: seq<Item>, b: seq<Item>)
    ensures AllGood(a + b) <==> AllGood(a) && AllGood(b)
  {
    if AllGood(a + b) {
      forall i | 0 <= i < |a| ensures Good(a[i]) { assert Good((a + b)[i]); }
      forall i | 0 <= i < |b| ensures Good(b[i]) { assert Good((a + b)[|a| + i]); }
    }
  }

  /**
   A file splices exactly if the depth permits, the file is sound and every file
   it includes splices one level down.
   */
  lemma {:induction false} SplicesStep(lib: Library, f: string, depth: nat)
    ensures Splices(lib, f, depth) <==>
            depth < INCLUDE_DEPTH_LIMIT && Sound(lib, f) &&
            forall g :: IncludesFile(lib, f, g) ==> Splices(lib, g, depth + 1)
  {
    hide ParseLine, SpliceLines, NamesAt;
    if f in lib.files {
      var lines := lib.files[f];
      if depth >= INCLUDE_DEPTH_LIMIT {
        BrokenIsNotGood(TooManyIncludes);
      } else {
        LinesSplice(lib, f, lines, 0, depth);
        if Splices(lib, f, depth) {
          forall n | 0 <= n < |lines| ensures SoundLine(lib, lines[n]) {
            assert LineOk(lib, lines, n, depth);
          }
          forall g | IncludesFile(lib, f, g) ensures Splices(lib, g, depth + 1) {
            var n, k, j :| NamesAt(lib, lines, n, k, j, g);
            NamesWithin(lib, lines, n, k, j, g);
            assert LineOk(lib, lines, n, depth);
          }
        } else if Sound(lib, f) && forall g :: IncludesFile(lib, f, g) ==> Splices(lib, g, depth + 1) {
          forall n | 0 <= n < |lines| ensures LineOk(lib, lines, n, depth) {
            forall k, j, g | NamesAt(lib, lines, n, k, j, g) ensures Splices(lib, g, depth + 1) {
              assert IncludesFile(lib, f, g);
            }
          }
        }
      }
    }
  }

  lemma NamesWithin(lib: Library, lines: seq<string>, n: int, k: int, j: int, g: string)
    requires NamesAt(lib, lines, n, k, j, g)
    ensures 0 <= n < |lines|
  {
  }

  /** A line is sound, and every file it names splices one level down. */
  ghost predicate LineOk(lib: Library, lines: seq<string>, n: int, depth: nat) {
    0 <= n < |lines| && SoundLine(lib, lines[n])
    && forall k, j, g :: NamesAt(lib, lines, n, k, j, g) ==> Splices(lib, g, depth + 1)
  }

  lemma {:induction false} LinesSplice(lib: Library, source: string, lines: seq<string>, n: nat, depth: nat)
    requires n <= |lines| && depth < INCLUDE_DEPTH_LIMIT
    ensures AllGood(SpliceLines(lib, source, lines, n, depth)) <==>
            forall m :: n <= m < |lines| ==> LineOk(lib, lines, m, depth)
    decreases |lines| - n
  {
    hide LineOk, SpliceLine;
    if n == |lines| {
    } else {
      AllGoodAppend(SpliceLine(lib, source, lines, n, depth), SpliceLines(lib, source, lines, n + 1, depth));
      LinesSplice(lib, source, lines, n + 1, depth);
      LineSplices(lib, source, lines, n, depth);
    }
  }

  lemma LineSplices(lib: Library, source: string, lines: seq<string>, n: nat, depth: nat)
    requires n < |lines| && depth < INCLUDE_DEPTH_LIMIT
    ensures AllGood(SpliceLine(lib, source, lines, n, depth)) <==> LineOk(lib, lines, n, depth)
  {
    match ParseLine(lines[n]) {
      case Ok(Include(args)) =>
        ArgumentsSplice(lib, args, depth);
        if AllGood(SpliceIncludes(lib, args, depth)) {
          forall k, j, g | NamesAt(lib, lines, n, k, j, g) ensures Splices(lib, g, depth + 1) {
            assert FilesSpliceAt(lib, lib.resolve(args[k]).value, depth);
          }
        } else if SoundLine(lib, lines[n]) {
          var k :| 0 <= k < |args| && !FilesSpliceAt(lib, lib.resolve(args[k]).value, depth);
          var files := lib.resolve(args[k]).value;
          var j :| 0 <= j < |files| && !Splices(lib, files[j], depth + 1);
          assert NamesAt(lib, lines, n, k, j, files[j]);
        }
      case _ =>
        var item := Text(source, n + 1, lines[n]);
        assert AllGood([item]) <==> Good([item][0]);
    }
  }

  lemma {:induction false} ArgumentsSplice(lib: Library, args: seq<string>, depth: nat)
    requires depth < INCLUDE_DEPTH_LIMIT
    ensures AllGood(SpliceIncludes(lib, args, depth)) <==>
            forall k :: 0 <= k < |args| ==>
              lib.resolve(args[k]).Some? && FilesSpliceAt(lib, lib.resolve(args[k]).value, depth)
    decreases |args|
  {
    if args == [] {
    } else {
      ArgumentsSplice(lib, args[1..], depth);
      var rest := SpliceIncludes(lib, args[1..], depth);
      match lib.resolve(args[0]) {
        case None =>
          AllGoodAppend([Broken(BadInclude(args[0]))], rest);
          assert !Good([Broken(BadInclude(args[0]))][0]);
        case Some(files) =>
          AllGoodAppend(SpliceFiles(lib, files, depth), rest);
          FilesSplice(lib, files, depth);
      }
      assert forall k :: 0 < k < |args| ==> args[k] == args[1..][k - 1];
      assert forall k :: 0 <= k < |args| - 1 ==> args[1..][k] == args[k + 1];
    }
  }

  ghost predicate FilesSpliceAt(lib: Library, files: seq<string>, depth: nat) {
    forall j :: 0 <= j < |files| ==> Splices(lib, files[j], depth + 1)
  }

  lemma {:induction false} FilesSplice(lib: Library, files: seq<string>, depth: nat)
    requires depth < INCLUDE_DEPTH_LIMIT
    ensures AllGood(SpliceFiles(lib, files, depth)) <==> FilesSpliceAt(lib, files, depth)
    decreases |files|
  {
    hide SpliceFile, Good;
    if files == [] {
    } else {
      FilesSplice(lib, files[1..], depth);
      var rest := SpliceFiles(lib, files[1..], depth);
      assert forall j :: 0 < j < |files| ==> files[j] == files[1..][j - 1];
      assert forall j :: 0 <= j < |files| - 1 ==> files[1..][j] == files[j + 1];
      if files[0] in lib.files {
        AllGoodAppend(SpliceFile(lib, files[0], lib.files[files[0]], depth + 1), rest);
      } else {
        AllGoodAppend([Broken(NoSuchFile(files[0]))], rest);
        BrokenIsNotGood(NoSuchFile(files[0]));
      }
    }
  }

  lemma BrokenIsNotGood(e: Error)
    ensures !AllGood([Broken(e)])
  {
    assert !Good([Broken(e)][0]);
  }

  /** Every chain of includes that starts with the file stays within the limit and ends in a sound file. */
  ghost predicate ChainsFit(lib: Library, f: string, depth: nat) {
    forall chain :: IsChain(lib, chain) && chain[0] == f ==> ChainFits(lib, chain, depth)
  }

  lemma {:induction false} ChainsOfSplicingFileFit(lib: Library, f: string, depth: nat, chain: seq<string>)
    requires Splices(lib, f, depth) && IsChain(lib, chain) && chain[0] == f
    ensures ChainFits(lib, chain, depth)
    decreases |chain|
  {
    hide Splices, Sound, IncludesFile;
    SplicesStep(lib, f, depth);
    if |chain| > 1 {
      ChainTail(lib, chain);
      assert IncludesFile(lib, chain[0], chain[0 + 1]);
      ChainsOfSplicingFileFit(lib, chain[1], depth + 1, chain[1..]);
    }
  }

  lemma {:induction false} FileWithFittingChainsSplices(lib: Library, f: string, depth: nat)
    requires ChainsFit(lib, f, depth)
    ensures Splices(lib, f, depth)
    decreases INCLUDE_DEPTH_LIMIT - depth
  {
    hide Splices, Sound, IncludesFile;
    assert IsChain(lib, [f]);
    assert ChainFits(lib, [f], depth);
    forall g | IncludesFile(lib, f, g) ensures Splices(lib, g, depth + 1) {
      forall chain | IsChain(lib, chain) && chain[0] == g ensures ChainFits(lib, chain, depth + 1) {
        ChainExtend(lib, f, chain);
        assert ChainFits(lib, [f] + chain, depth);
      }
      FileWithFittingChainsSplices(lib, g, depth + 1);
    }
    SplicesStep(lib, f, depth);
  }

  ghost predicate ChainFits(lib: Library, chain: seq<string>, depth: nat)
    requires chain != []
  {
    depth + |chain| <= INCLUDE_DEPTH_LIMIT && Sound(lib, chain[|chain| - 1])
  }

  lemma ChainTail(lib: Library, chain: seq<string>)
    requires IsChain(lib, chain) && |chain| > 1
    ensures IsChain(lib, chain[1..])
  {
    forall i | 0 <= i < |chain| - 2 ensures IncludesFile(lib, chain[1..][i], chain[1..][i + 1]) {
      assert IncludesFile(lib, chain[i + 1], chain[i + 1 + 1]);
    }
  }

  lemma ChainExtend(lib: Library, f: string, chain: seq<string>)
    requires IsChain(lib, chain) && IncludesFile(lib, f, chain[0])
    ensures IsChain(lib, [f] + chain)
  {
    var longer := [f] + chain;
    forall i | 0 <= i < |longer| - 1 ensures IncludesFile(lib, longer[i], longer[i + 1]) {
      if i > 0 { assert IncludesFile(lib, chain[i - 1], chain[i - 1 + 1]); }
    }
  }

  /**
   A configuration parses exactly when no chain of includes is longer than
   sixteen files and every file that can be reached exists, has only lines
   that parse and include arguments that resolve. The host does not matter.
   */
  lemma ParseSucceedsIff(env: Env, name: string)
    ensures ParseFileFor(env, name).Ok? <==>
            forall chain :: IsChain(env.library, chain) && chain[0] == name ==>
              |chain| <= 16 && Sound(env.library, chain[|chain| - 1])
  {
    hide Splices, Sound, IncludesFile;
    if Splices(env.library, name, 0) {
      forall chain | IsChain(env.library, chain) && chain[0] == name ensures ChainFits(env.library, chain, 0) {
        ChainsOfSplicingFileFit(env.library, name, 0, chain);
      }
    } else if ChainsFit(env.library, name, 0) {
      FileWithFittingChainsSplices(env.library, name, 0);
    }
    assert forall chain :: IsChain(env.library, chain) && chain[0] == name ==>
      (ChainFits(env.library, chain, 0) <==> |chain| <= 16 && Sound(env.library, chain[|chain| - 1]));
    SuccessIsSplicing(env, name);
  }

  lemma SuccessIsSplicing(env: Env, name: string)
    ensures ParseFileFor(env, name).Ok? <==> Splices(env.library, name, 0)
  {
    if name in env.library.files {
      ParsingIsFolding(env, name, env.library.files[name], 0, ParseState(true, map[]));
      FoldSucceeds(env.host, SpliceFile(env.library, name, env.library.files[name], 0), ParseState(true, map[]));
    }
  }

  /** A chain that comes back to a file can go round once more. */
  lemma OnceMore(lib: Library, chain: seq<string>, i: nat, j: nat) returns (longer: seq<string>)
    requires IsChain(lib, chain) && i < j < |chain| && chain[i] == chain[j]
    ensures IsChain(lib, longer) && longer[0] == chain[0]
    ensures |longer| == |chain| + j - i && longer[i] == longer[j] && j < |longer|
  {
    hide IncludesFile;
    longer := chain[..j] + chain[i..];
    forall k | 0 <= k < |longer| - 1 ensures IncludesFile(lib, longer[k], longer[k + 1]) {
      var m := if k < j then k else k - j + i;
      assert longer[k] == chain[m] && longer[k + 1] == chain[m + 1];
      assert IncludesFile(lib, chain[m], chain[m + 1]);
    }
    assert longer[i] == chain[i] && longer[j] == chain[i];
  }

  /** After a successful parse no file includes itself, directly or through others. */
  lemma {:induction false} NoIncludeCycle(env: Env, name: string, chain: seq<string>, i: nat, j: nat)
    requires ParseFileFor(env, name).Ok? && IsChain(env.library, chain) && chain[0] == name
    requires i < j < |chain|
    ensures chain[i] != chain[j]
    decreases INCLUDE_DEPTH_LIMIT + 1 - |chain|
  {
    ParseSucceedsIff(env, name);
    assert |chain| <= 16;
    hide ParseFileFor, Sound, IncludesFile;
    if chain[i] == chain[j] {
      var longer := OnceMore(env.library, chain, i, j);
      NoIncludeCycle(env, name, longer, i, j);
    }
  }

  // --------------------------------------------------------- first match wins

  /** The keyword and arguments that an item sets, if it sets anything. */
  function Entry(item: Item): Option<(string, seq<string>)> {
    if item.Broken? then None
    else
      match ParseLine(item.text)
      case Ok(Generic(keyword, args)) => Some((keyword, args))
      case _ => None
  }

  function HostLine(item: Item): Option<seq<string>> {
    if item.Broken? then None
    else
      match ParseLine(item.text)
      case Ok(Host(args)) => Some(args)
      case _ => None
  }

  /** Is the item at `i` in effect? The closest host line above it decides; text above every host line is. */
  predicate InEffect(host: Option<string>, items: seq<Item>, i: nat)
    requires i <= |items|
  {
    if i == 0 then true
    else if HostLine(items[i - 1]).Some? then EvaluateHostMatch(host, HostLine(items[i - 1]).value)
    else InEffect(host, items, i - 1)
  }

  predicate SetsAt(host: Option<string>, items: seq<Item>, i: int, key: string) {
    0 <= i < |items| && Entry(items[i]).Some? && Entry(items[i]).value.0 == key && InEffect(host, items, i)
  }

  const START: ParseState := ParseState(true, map[])

  /** The setting of a key is that of the first line in effect that has the keyword; nothing else is set. */
  ghost predicate FirstWins(host: Option<string>, items: seq<Item>, n: nat, st: ParseState)
    requires n <= |items|
  {
    && st.accepting == InEffect(host, items, n)
    && (forall key :: key in st.data ==> exists i :: i < n && FirstAt(host, items, i, key, st))
    && (forall key, i :: i < n && SetsAt(host, items, i, key) ==> key in st.data)
  }

  ghost predicate FirstAt(host: Option<string>, items: seq<Item>, i: int, key: string, st: ParseState)
    requires key in st.data
  {
    && SetsAt(host, items, i, key)
    && (forall j :: 0 <= j < i ==> !SetsAt(host, items, j, key))
    && st.data[key] == Setting(items[i].source, items[i].lineNumber, Entry(items[i]).value.1)
  }

  lemma {:induction false} FirstMatchWins(host: Option<string>, items: seq<Item>, n: nat)
    requires n <= |items| && Fold(host, items[..n], START).Ok?
    ensures FirstWins(host, items, n, Fold(host, items[..n], START).value)
  {
    if n == 0 {
    } else {
      assert items[..n] == items[..n - 1] + [items[n - 1]];
      FoldAppend(host, items[..n - 1], [items[n - 1]], START);
      FirstMatchWins(host, items, n - 1);
      var before, after := Fold(host, items[..n - 1], START).value, Fold(host, items[..n], START).value;
      assert Fold(host, [items[n - 1]], before) == FoldOne(host, items[n - 1], before);
      FirstMatchStep(host, items, n, before, after);
    }
  }

  lemma FirstMatchStep(host: Option<string>, items: seq<Item>, n: nat, before: ParseState, after: ParseState)
    requires 0 < n <= |items| && FirstWins(host, items, n - 1, before)
    requires FoldOne(host, items[n - 1], before) == Ok(after)
    ensures FirstWins(host, items, n, after)
  {
    hide ParseLine;
    forall key | key in after.data ensures exists i :: i < n && FirstAt(host, items, i, key, after) {
      if key in before.data {
        var i :| i < n - 1 && FirstAt(host, items, i, key, before);
        assert FirstAt(host, items, i, key, after);
      } else {
        assert FirstAt(host, items, n - 1, key, after);
      }
    }
  }

  /** For a whole file: the settings are the first accepted lines of its spliced text. */
  lemma ParsedSettings(env: Env, name: string)
    requires ParseFileFor(env, name).Ok?
    ensures name in env.library.files
    ensures
      var items := SpliceFile(env.library, name, env.library.files[name], 0);
      FirstWins(env.host, items, |items|, ParseFileFor(env, name).value)
  {
    var items := SpliceFile(env.library, name, env.library.files[name], 0);
    ParsingIsFolding(env, name, env.library.files[name], 0, START);
    assert items[..|items|] == items;
    FirstMatchWins(env.host, items, |items|);
  }

  /** Text that is added at the end, and parses, never changes what an earlier line has set. */
  lemma {:induction false} LaterTextKeepsSettings(host: Option<string>, items: seq<Item>, st: ParseState, key: string)
    requires Fold(host, items, st).Ok? && key in st.data
    ensures key in Fold(host, items, st).value.data
    ensures Fold(host, items, st).value.data[key] == st.data[key]
  {
    hide ParseLine;
    if items == [] {
    } else {
      LaterTextKeepsSettings(host, items[1..], FoldOne(host, items[0], st).value, key);
    }
  }

  /** Whatever is set for an unspecified host is set, by some line, for every named host. */
  lemma UnspecifiedHostSetsLess(env: Env, named: string, name: string)
    requires env.host == None && ParseFileFor(env, name).Ok?
    ensures ParseFileFor(env.(host := Some(named)), name).Ok?
    ensures ParseFileFor(env, name).value.data.Keys <= ParseFileFor(env.(host := Some(named)), name).value.data.Keys
  {
    var env' := env.(host := Some(named));
    var lines := env.library.files[name];
    ParsingIsFolding(env, name, lines, 0, START);
    ParsingIsFolding(env', name, lines, 0, START);
    var items := SpliceFile(env.library, name, lines, 0);
    FoldSucceeds(None, items, START);
    FoldSucceeds(Some(named), items, START);
    FoldSetsLess(named, items, START, START);
  }

  lemma {:induction false} FoldSetsLess(named: string, items: seq<Item>, a: ParseState, b: ParseState)
    requires Fold(None, items, a).Ok? && Fold(Some(named), items, b).Ok?
    requires (a.accepting ==> b.accepting) && a.data.Keys <= b.data.Keys
    ensures Fold(None, items, a).value.data.Keys <= Fold(Some(named), items, b).value.data.Keys
  {
    hide ParseLine;
    if items == [] {
    } else {
      var a', b' := FoldOne(None, items[0], a).value, FoldOne(Some(named), items[0], b).value;
      if HostLine(items[0]).Some? && EvaluateHostMatch(None, HostLine(items[0]).value) {
        UnspecifiedHostMatchesLess(named, HostLine(items[0]).value);
      }
      FoldSetsLess(named, items[1..], a', b');
    }
  }
}
