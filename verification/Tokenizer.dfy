/** Splitting the arguments of a configuration line, with quoting, escapes and comments. */
module Tokenizer {
  import opened Wrappers

  datatype Error = UnterminatedQuote

  /** No quote is open. The program uses this character as the mark, so an unquoted NUL reads as the end of a quote. */
  const UNQUOTED: char := '\0'

  predicate Blank(c: char) {
    c == ' ' || c == '\t'
  }

  predicate Quote(c: char) {
    c == '\'' || c == '"'
  }

  predicate Escapable(c: char) {
    Quote(c) || c == '\\'
  }

  // ------------------------------------------------------- one-pass automaton

  /** Between arguments, inside one (with the open quote, and whether a backslash is pending), or in a comment. */
  datatype State =
    | Between(done: seq<string>)
    | Within(done: seq<string>, arg: string, quote: char, escape: bool)
    | Comment(done: seq<string>)

  /** A character that no backslash precedes, inside an argument. */
  function Plain(done: seq<string>, arg: string, quote: char, c: char): State {
    if c == '\\' then Within(done, arg, quote, true)
    else if Blank(c) && quote == UNQUOTED then Between(done + [arg])
    else if Quote(c) && quote == UNQUOTED then Within(done, arg, c, false)
    else if c == quote then Within(done, arg, UNQUOTED, false)
    else Within(done, arg + [c], quote, false)
  }

  function Next(s: State, c: char): State {
    match s
    case Between(done) =>
      if Blank(c) then s else if c == '#' then Comment(done) else Plain(done, "", UNQUOTED, c)
    case Within(done, arg, quote, escape) =>
      if !escape then Plain(done, arg, quote, c)
      else if Escapable(c) then Within(done, arg + [c], quote, false)
      else Plain(done, arg + ['\\'], quote, c)
    case Comment(_) => s
  }

  function Run(s: State, input: string): State
    decreases |input|
  {
    if input == "" then s else Run(Next(s, input[0]), input[1..])
  }

  function Finish(s: State): Result<seq<string>, Error> {
    match s
    case Between(done) => Ok(done)
    case Comment(done) => Ok(done)
    case Within(done, arg, quote, escape) =>
      if quote != UNQUOTED then Err(UnterminatedQuote) else Ok(done + [if escape then arg + ['\\'] else arg])
  }

  function Tokenize(input: string): Result<seq<string>, Error> {
    Finish(Run(Between([]), input))
  }

  // ---------------------------------------------------------------- the loops

  /** The nested index loops with their one-character lookahead compute the same as the automaton. */
  method SplitArgs(input: string) returns (r: Result<seq<string>, Error>)
    ensures r == Tokenize(input)
  {
    var i := 0;
    var output: seq<string> := [];
    while i < |input|
      invariant 0 <= i
      invariant i <= |input| ==> Finish(Run(Between(output), input[i..])) == Tokenize(input)
      invariant i > |input| ==> Tokenize(input) == Ok(output)
    {
      assert input[i..][1..] == input[i + 1..];
      if Blank(input[i]) {
        i := i + 1;
        continue;
      }
      if input[i] == '#' {
        StaysInComment(output, input[i + 1..]);
        break;
      }
      var currentArg := "";
      var quoteState := UNQUOTED;
      ghost var s := Between(output);
      while i < |input|
        invariant 0 <= i <= |input|
        invariant Finish(Run(s, input[i..])) == Tokenize(input)
        invariant s == Within(output, currentArg, quoteState, false)
                  || (s == Between(output) && i < |input| && !Blank(input[i]) && input[i] != '#'
                      && currentArg == "" && quoteState == UNQUOTED)
      {
        var ch := input[i];
        assert input[i..][1..] == input[i + 1..];
        assert Next(s, ch) == Plain(output, currentArg, quoteState, ch);
        if ch == '\\' {
          if i + 1 < |input| && Escapable(input[i + 1]) {
            assert input[i + 1..][1..] == input[i + 2..];
            currentArg := currentArg + [input[i + 1]];
            i := i + 1;
          } else {
            PendingBackslash(output, currentArg, quoteState, input[i + 1..]);
            currentArg := currentArg + [ch];
          }
        } else if Blank(ch) && quoteState == UNQUOTED {
          break;
        } else if Quote(ch) && quoteState == UNQUOTED {
          quoteState := ch;
        } else if ch == quoteState {
          quoteState := UNQUOTED;
        } else {
          currentArg := currentArg + [ch];
        }
        i := i + 1;
        s := Within(output, currentArg, quoteState, false);
      }
      if quoteState != UNQUOTED {
        return Err(UnterminatedQuote);
      }
      output := output + [currentArg];
      i := i + 1;
    }
    r := Ok(output);
  }

  lemma {:induction false} StaysInComment(done: seq<string>, input: string)
    ensures Run(Comment(done), input) == Comment(done)
  {
    if input == "" {
    } else {
      StaysInComment(done, input[1..]);
    }
  }

  /** A backslash that escapes nothing behaves as a character of its own. */
  lemma PendingBackslash(done: seq<string>, arg: string, quote: char, rest: string)
    requires rest == "" || !Escapable(rest[0])
    ensures Finish(Run(Within(done, arg, quote, true), rest)) ==
            Finish(Run(Within(done, arg + ['\\'], quote, false), rest))
  {
  }

  // ------------------------------------------------------------- composition

  lemma {:induction false} RunAppend(s: State, a: string, b: string)
    ensures Run(s, a + b) == Run(Run(s, a), b)
    decreases |a|
  {
    if a == "" {
      assert a + b == b;
    } else {
      assert (a + b)[1..] == a[1..] + b;
      RunAppend(Next(s, a[0]), a[1..], b);
    }
  }

  function WithDone(before: seq<string>, s: State): State {
    match s
    case Between(done) => Between(before + done)
    case Within(done, arg, quote, escape) => Within(before + done, arg, quote, escape)
    case Comment(done) => Comment(before + done)
  }

  /** The arguments found so far have no influence on the rest. */
  lemma {:induction false} RunKeepsDone(before: seq<string>, s: State, input: string)
    ensures Run(WithDone(before, s), input) == WithDone(before, Run(s, input))
    decreases |input|
  {
    if input == "" {
    } else {
      NextKeepsDone(before, s, input[0]);
      RunKeepsDone(before, Next(s, input[0]), input[1..]);
    }
  }

  lemma NextKeepsDone(before: seq<string>, s: State, c: char)
    ensures Next(WithDone(before, s), c) == WithDone(before, Next(s, c))
  {
    assert forall arg :: before + (s.done + [arg]) == before + s.done + [arg];
  }

  predicate MeetsComment(input: string) {
    Run(Between([]), input).Comment?
  }

  function Append(a: seq<string>, b: Result<seq<string>, Error>): Result<seq<string>, Error> {
    match b case Ok(args) => Ok(a + args) case Err(e) => Err(e)
  }

  /**
   Text that can be split and has no comment is split independently of what
   follows after a blank, whose errors come through; after a comment nothing
   counts any more.
   */
  lemma SplitComposes(s: string, blank: char, t: string)
    requires Blank(blank) && Tokenize(s).Ok?
    ensures Tokenize(s + [blank] + t) == if MeetsComment(s) then Tokenize(s) else Append(Tokenize(s).value, Tokenize(t))
  {
    var start, done := Between([]), Tokenize(s).value;
    var after := Run(start, s);
    assert s + [blank] + t == s + ([blank] + t);
    RunAppend(start, s, [blank] + t);
    assert ([blank] + t)[1..] == t;
    if MeetsComment(s) {
      StaysInComment(after.done, [blank] + t);
    } else {
      assert Next(after, blank) == Between(done);
      assert WithDone(done, start) == Between(done) by { assert done + [] == done; }
      RunKeepsDone(done, start, t);
      var rest := Run(start, t);
      assert rest.Within? ==> forall arg :: done + (rest.done + [arg]) == done + rest.done + [arg];
    }
  }

  // --------------------------------------------------------------- round trip

  /** The argument between double quotes, with backslashes and quotes escaped. */
  function Escaped(arg: string): string {
    if arg == "" then ""
    else (if Escapable(arg[0]) then ['\\', arg[0]] else [arg[0]]) + Escaped(arg[1..])
  }

  function Quoted(arg: string): string {
    ['"'] + Escaped(arg) + ['"']
  }

  function JoinQuoted(args: seq<string>): string {
    if args == [] then "" else if |args| == 1 then Quoted(args[0]) else Quoted(args[0]) + [' '] + JoinQuoted(args[1..])
  }

  lemma {:induction false} RunEscaped(done: seq<string>, before: string, arg: string)
    ensures Run(Within(done, before, '"', false), Escaped(arg)) == Within(done, before + arg, '"', false)
    decreases |arg|
  {
    var s := Within(done, before, '"', false);
    if arg == "" {
      assert before + arg == before;
    } else {
      var tail := Escaped(arg[1..]);
      assert before + arg == before + [arg[0]] + arg[1..];
      RunEscaped(done, before + [arg[0]], arg[1..]);
      if Escapable(arg[0]) {
        var text := ['\\', arg[0]] + tail;
        assert text[1..] == [arg[0]] + tail && ([arg[0]] + tail)[1..] == tail;
      } else {
        assert ([arg[0]] + tail)[1..] == tail;
      }
    }
  }

  lemma QuotedIsOneArgument(arg: string)
    ensures Run(Between([]), Quoted(arg)) == Within([], arg, UNQUOTED, false)
  {
    var open := Within([], "", '"', false);
    assert Quoted(arg) == ['"'] + (Escaped(arg) + ['"']);
    assert (['"'] + (Escaped(arg) + ['"']))[1..] == Escaped(arg) + ['"'];
    RunAppend(open, Escaped(arg), ['"']);
    RunEscaped([], "", arg);
    assert "" + arg == arg;
    assert Run(open, Escaped(arg) + ['"']) == Next(Within([], arg, '"', false), '"');
  }

  /** Any list of arguments, empty ones and ones with blanks, quotes or comment marks included, survives quoting. */
  lemma {:induction false} SplitUndoesQuoting(args: seq<string>)
    ensures Tokenize(JoinQuoted(args)) == Ok(args)
    ensures !MeetsComment(JoinQuoted(args))
  {
    if args == [] {
    } else {
      QuotedIsOneArgument(args[0]);
      assert [] + [args[0]] == [args[0]];
      assert |args| == 1 ==> args == [args[0]];
    }
    if |args| > 1 {
      var head, tail := Quoted(args[0]), JoinQuoted(args[1..]);
      SplitUndoesQuoting(args[1..]);
      SplitComposes(head, ' ', tail);
      assert args == [args[0]] + args[1..];
      RunAppend(Between([]), head + [' '], tail);
      RunAppend(Between([]), head, [' ']);
      RunKeepsDone([args[0]], Between([]), tail);
      assert Run(Between([]), head + [' ']) == Between([args[0]]);
      assert WithDone([args[0]], Between([])) == Between([args[0]]) by { assert [args[0]] + [] == [args[0]]; }
    }
  }

  /** Text that a quote of the kind `q` takes as it stands. */
  predicate Verbatim(q: char, s: string) {
    q !in s && '\\' !in s
  }

  lemma {:induction false} QuoteTakes(done: seq<string>, arg: string, q: char, s: string)
    requires Quote(q) && Verbatim(q, s)
    ensures Run(Within(done, arg, q, false), s) == Within(done, arg + s, q, false)
    decreases |s|
  {
    if s == "" {
      assert arg + s == arg;
    } else {
      assert s[0] in s;
      QuoteTakes(done, arg + [s[0]], q, s[1..]);
      assert arg + s == arg + [s[0]] + s[1..];
    }
  }

  /**
   A single quote and a double quote each take everything up to the next of the
   same kind, which has to be there: blanks, comment marks, and the other kind.
   */
  lemma EitherQuote(q: char, s: string)
    requires (q == '\'' || q == '"') && Verbatim(q, s)
    ensures Tokenize([q] + s + [q]) == Ok([s])
    ensures Tokenize([q] + s) == Err(UnterminatedQuote)
  {
    var open := Within([], "", q, false);
    assert ([q] + s)[1..] == s && "" + s == s && [] + [s] == [s];
    assert [q] + s + [q] == [q] + (s + [q]) && ([q] + (s + [q]))[1..] == s + [q];
    QuoteTakes([], "", q, s);
    RunAppend(open, s, [q]);
    assert Run(Within([], s, q, false), [q]) == Within([], s, UNQUOTED, false);
  }

  lemma {:induction false} WordTaken(done: seq<string>, arg: string, s: string)
    requires forall i :: 0 <= i < |s| ==> Literal(s[i])
    ensures Run(Within(done, arg, UNQUOTED, false), s) == Within(done, arg + s, UNQUOTED, false)
    decreases |s|
  {
    if s == "" {
      assert arg + s == arg;
    } else {
      WordTaken(done, arg + [s[0]], s[1..]);
      assert arg + s == arg + [s[0]] + s[1..];
    }
  }

  /** Between arguments a mark starts a comment, which runs to the end; inside one it is a character like others. */
  lemma CommentMark(s: string, w: string, t: string)
    requires Tokenize(s).Ok? && !MeetsComment(s)
    requires w != "" && w[0] != '#' && forall i :: 0 <= i < |w| ==> Literal(w[i])
    ensures Tokenize(s + " " + ("#" + t)) == Tokenize(s)
    ensures Tokenize(s + "\t" + (w + "#")) == Ok(Tokenize(s).value + [w + "#"])
  {
    SplitComposes(s, ' ', "#" + t);
    SplitComposes(s, '\t', w + "#");
    assert ("#" + t)[1..] == t && Tokenize(s).value + [] == Tokenize(s).value;
    StaysInComment([], t);
    var rest := w[1..] + "#";
    assert (w + "#")[1..] == rest && "" + [w[0]] == [w[0]] && [w[0]] + rest == w + "#" && [] + [w + "#"] == [w + "#"];
    WordTaken([], [w[0]], rest);
  }

  /** Outside quotes these characters stand for themselves. */
  predicate Literal(c: char) {
    !Blank(c) && !Quote(c) && c != '\\' && c != UNQUOTED
  }

  /**
   In an argument, outside quotes and after no backslash, a character is kept if
   it is literal, and is lost only if it is NUL.
   */
  lemma KeptOutsideQuotes(s: string, c: char)
    requires Run(Between([]), s).Within? && Run(Between([]), s).quote == UNQUOTED && !Run(Between([]), s).escape
    ensures
      var before, after := Run(Between([]), s), Run(Between([]), s + [c]);
      && (after == before.(arg := before.arg + [c]) <==> Literal(c))
      && (after == before <==> c == UNQUOTED)
  {
    RunAppend(Between([]), s, [c]);
    var before := Run(Between([]), s);
    assert Run(before, [c]) == Next(before, c);
    assert |before.arg + [c]| == |before.arg| + 1;
  }

  /**
   A NUL outside quotes is taken for a closing mark. In an argument it vanishes,
   whatever comes before and after, unless it parts a backslash from what the
   backslash would escape, which leaves the backslash on its own; between
   arguments it starts an empty one.
   */
  lemma UnquotedNulVanishes(s: string, t: string)
    requires Run(Between([]), s).Within? ==> Run(Between([]), s).quote == UNQUOTED
    ensures
      var before, got := Run(Between([]), s), Tokenize(s + ['\0'] + t);
      && (before.Within? && (!before.escape || t == "" || !Escapable(t[0])) ==> got == Tokenize(s + t))
      && (before.Within? && before.escape ==>
            got == Finish(Run(before.(arg := before.arg + ['\\'], escape := false), t)))
      && (before.Between? ==> got == Finish(Run(Within(before.done, "", UNQUOTED, false), t)))
      && (before.Comment? ==> got == Tokenize(s + t))
  {
    var before := Run(Between([]), s);
    RunAppend(Between([]), s, t);
    RunAppend(Between([]), s, [UNQUOTED]);
    RunAppend(Between([]), s + [UNQUOTED], t);
    assert Run(before, [UNQUOTED]) == Next(before, UNQUOTED);
    if before.Within? && before.escape && (t == "" || !Escapable(t[0])) {
      PendingBackslash(before.done, before.arg, UNQUOTED, t);
    }
  }
}
