/** What the lines of a configuration file mean: keywords, separators, comments, and settings below a host line. */
module SshLines {
  import opened Wrappers
  import opened Tokenizer
  import opened SshConfig

  // ---------------------------------------------------------------------- keywords

  predicate Mark(c: char) {
    c == '_' || c == '-'
  }

  /** The same letter in either case, or the same character. */
  predicate SameLetter(c: char, lower: char) {
    c == lower || ('a' <= lower <= 'z' && c as int == lower as int - 32)
  }

  /** Do the letters of the keyword, marks aside and in whatever case, spell the word? */
  predicate Spells(keyword: string, word: string) {
    if keyword == "" then word == ""
    else if Mark(keyword[0]) then Spells(keyword[1..], word)
    else word != "" && SameLetter(keyword[0], word[0]) && Spells(keyword[1..], word[1..])
  }

  /** Lower case, without marks. */
  predicate IsWord(word: string) {
    forall i :: 0 <= i < |word| ==> !Mark(word[i]) && !('A' <= word[i] <= 'Z')
  }

  lemma {:induction false} SpellsIff(keyword: string, word: string)
    requires IsWord(word)
    ensures Spells(keyword, word) <==> Canonical(keyword) == word
    decreases |keyword|
  {
    if keyword == "" {
    } else if Mark(keyword[0]) {
      SpellsIff(keyword[1..], word);
    } else if word != "" {
      assert IsWord(word[1..]) by {
        assert forall i :: 0 <= i < |word[1..]| ==> word[1..][i] == word[i + 1];
      }
      assert !Mark(word[0]) && !('A' <= word[0] <= 'Z');
      SpellsIff(keyword[1..], word[1..]);
      assert Canonical(keyword) == [LowerCase(keyword[0])] + Canonical(keyword[1..]);
      assert word == [word[0]] + word[1..];
    }
  }

  lemma {:induction false} CanonicalIsWord(s: string)
    ensures IsWord(Canonical(s))
  {
    if s == "" {
    } else {
      CanonicalIsWord(s[1..]);
    }
  }

  /** The name that a generic line is filed under: the first field that it spells, or its own letters. */
  ghost predicate FiledAs(keyword: string, name: string) {
    || (exists i :: 0 <= i < |FIELD_NAMES| && SpellsField(keyword, i) && name == FIELD_NAMES[i] &&
          forall j :: 0 <= j < i ==> !SpellsField(keyword, j))
    || ((forall i :: 0 <= i < |FIELD_NAMES| ==> !SpellsField(keyword, i)) && IsWord(name) && Spells(keyword, name))
  }

  /** The names of the fields have no capitals. */
  predicate SpellsField(keyword: string, i: nat)
    requires i < |FIELD_NAMES|
  {
    Spells(keyword, WithoutMarks(FIELD_NAMES[i]))
  }

  function WithoutMarks(s: string): string {
    if s == "" then "" else (if Mark(s[0]) then "" else [s[0]]) + WithoutMarks(s[1..])
  }

  predicate NoCapitals(s: string) {
    forall i :: 0 <= i < |s| ==> !('A' <= s[i] <= 'Z')
  }

  lemma {:induction false} WithoutMarksIs(s: string)
    requires NoCapitals(s)
    ensures WithoutMarks(s) == Canonical(s)
  {
    if s == "" {
    } else {
      assert forall i :: 0 <= i < |s[1..]| ==> s[1..][i] == s[i + 1];
      assert !('A' <= s[0] <= 'Z');
      WithoutMarksIs(s[1..]);
    }
  }

  lemma EarlyFieldsHaveNoCapitals(i: nat)
    requires i < 9
    ensures NoCapitals(FIELD_NAMES[i])
  {
  }

  lemma MiddleFieldsHaveNoCapitals(i: nat)
    requires 9 <= i < 18
    ensures NoCapitals(FIELD_NAMES[i])
  {
  }

  lemma LateFieldsHaveNoCapitals(i: nat)
    requires 18 <= i < |FIELD_NAMES|
    ensures NoCapitals(FIELD_NAMES[i])
  {
  }

  lemma FieldsHaveNoCapitals(i: nat)
    requires i < |FIELD_NAMES|
    ensures NoCapitals(FIELD_NAMES[i])
  {
    hide NoCapitals;
    if i < 9 {
      EarlyFieldsHaveNoCapitals(i);
    } else if i < 18 {
      MiddleFieldsHaveNoCapitals(i);
    } else {
      LateFieldsHaveNoCapitals(i);
    }
  }

  lemma SpellsFieldIff(keyword: string, i: nat)
    requires i < |FIELD_NAMES|
    ensures SpellsField(keyword, i) <==> Canonical(FIELD_NAMES[i]) == Canonical(keyword)
  {
    FieldsHaveNoCapitals(i);
    WithoutMarksIs(FIELD_NAMES[i]);
    CanonicalIsWord(FIELD_NAMES[i]);
    SpellsIff(keyword, Canonical(FIELD_NAMES[i]));
  }

  lemma {:induction false} FieldIs(canonical: string, fields: seq<string>)
    ensures
      var name := ConfigurationField(canonical, fields);
      || (exists i :: 0 <= i < |fields| && FirstField(canonical, fields, i) && name == fields[i])
      || ((forall i :: 0 <= i < |fields| ==> Canonical(fields[i]) != canonical) && name == canonical)
  {
    if fields == [] {
    } else if Canonical(fields[0]) == canonical {
      assert FirstField(canonical, fields, 0);
    } else {
      var others := fields[1..];
      FieldIs(canonical, others);
      var name := ConfigurationField(canonical, others);
      if i :| 0 <= i < |others| && FirstField(canonical, others, i) && name == others[i] {
        assert forall j :: 0 < j < i + 1 ==> fields[j] == others[j - 1];
        assert FirstField(canonical, fields, i + 1);
      } else {
        assert forall i :: 0 < i < |fields| ==> fields[i] == others[i - 1];
      }
    }
  }

  ghost predicate FirstField(canonical: string, fields: seq<string>, i: nat)
    requires i < |fields|
  {
    Canonical(fields[i]) == canonical && forall j :: 0 <= j < i ==> Canonical(fields[j]) != canonical
  }

  lemma FiledAsField(keyword: string)
    ensures FiledAs(keyword, ConfigurationField(Canonical(keyword), FIELD_NAMES))
  {
    hide Spells, Canonical, SpellsField;
    var canonical := Canonical(keyword);
    var name := ConfigurationField(canonical, FIELD_NAMES);
    FieldIs(canonical, FIELD_NAMES);
    forall i | 0 <= i < |FIELD_NAMES| ensures SpellsField(keyword, i) <==> Canonical(FIELD_NAMES[i]) == canonical {
      SpellsFieldIff(keyword, i);
    }
    if i :| 0 <= i < |FIELD_NAMES| && FirstField(canonical, FIELD_NAMES, i) && name == FIELD_NAMES[i] {
      assert SpellsField(keyword, i);
    } else {
      CanonicalIsWord(keyword);
      SpellsIff(keyword, canonical);
    }
  }

  // ------------------------------------------------------------------------- lines

  ghost predicate AllWhite(s: string) {
    forall i :: 0 <= i < |s| ==> WhiteSpace(s[i])
  }

  /** A keyword as it can be written: without white space or an equals sign. */
  ghost predicate IsKeyword(s: string) {
    s != "" && forall i :: 0 <= i < |s| ==> !WhiteSpace(s[i]) && s[i] != '='
  }

  lemma {:induction false} TrimStartIs(pad: string, body: string)
    requires AllWhite(pad) && (body != "" ==> !WhiteSpace(body[0]))
    ensures TrimStart(pad + body) == body
  {
    if pad == "" {
      assert pad + body == body;
    } else {
      assert (pad + body)[1..] == pad[1..] + body;
      TrimStartIs(pad[1..], body);
    }
  }

  lemma {:induction false} TrimEndIs(body: string, pad: string)
    requires AllWhite(pad) && (body != "" ==> !WhiteSpace(body[|body| - 1]))
    ensures TrimEnd(body + pad) == body
    decreases |pad|
  {
    if pad == "" {
      assert body + pad == body;
    } else {
      var init := pad[..|pad| - 1];
      assert (body + pad)[..|body + pad| - 1] == body + init;
      TrimEndIs(body, init);
    }
  }

  lemma TrimIs(before: string, body: string, after: string)
    requires AllWhite(before) && AllWhite(after)
    requires body != "" ==> !WhiteSpace(body[0]) && !WhiteSpace(body[|body| - 1])
    ensures Trim(before + body + after) == body
  {
    if body == "" {
      assert before + body + after == (before + after) + "";
      TrimStartIs(before + after, "");
    } else {
      assert before + body + after == before + (body + after);
      TrimStartIs(before, body + after);
      TrimEndIs(body, after);
    }
  }

  lemma {:induction false} KeywordLengthIs(keyword: string, rest: string)
    requires forall i :: 0 <= i < |keyword| ==> !KeywordEnd(keyword[i])
    requires rest != "" ==> KeywordEnd(rest[0])
    ensures KeywordLength(keyword + rest) == |keyword|
  {
    if keyword == "" {
      assert keyword + rest == rest;
    } else {
      assert (keyword + rest)[1..] == keyword[1..] + rest;
      KeywordLengthIs(keyword[1..], rest);
    }
  }

  lemma NoKeywordEnd(keyword: string)
    requires IsKeyword(keyword)
    ensures forall i :: 0 <= i < |keyword| ==> !KeywordEnd(keyword[i])
  {
  }

  /** Does the keyword start a comment, marks aside? */
  predicate IsComment(keyword: string) {
    keyword != "" && (keyword[0] == '#' || (Mark(keyword[0]) && IsComment(keyword[1..])))
  }

  lemma {:induction false} IsCommentIff(keyword: string)
    ensures IsComment(keyword) <==> Canonical(keyword) != "" && Canonical(keyword)[0] == '#'
  {
    if keyword == "" {
    } else {
      IsCommentIff(keyword[1..]);
    }
  }

  /** What a keyword makes of its arguments. */
  ghost predicate Means(keyword: string, args: seq<string>, line: Line) {
    if Spells(keyword, "host") then line == Host(args)
    else if Spells(keyword, "match") then line == Match(args)
    else if Spells(keyword, "include") then line == Include(args)
    else line.Generic? && line.args == args && FiledAs(keyword, line.keyword)
  }

  /**
   A line with white space around it, a keyword, one of the three separators, and
   text: the keyword decides what becomes of the arguments that the text splits
   into.
   */
  lemma LineMeans(before: string, keyword: string, separator: char, text: string, after: string)
    requires AllWhite(before) && AllWhite(after) && IsKeyword(keyword) && !IsComment(keyword)
    requires separator in {' ', '\t', '='} && text != "" && !WhiteSpace(text[|text| - 1])
    ensures
      var line := ParseLine(before + (keyword + [separator] + text) + after);
      match Tokenize(text)
      case Err(_) => line == Err(BadQuoting)
      case Ok(args) => if args == [] then line == Err(MissingArgument) else line.Ok? && Means(keyword, args, line.value)
  {
    var body := keyword + [separator] + text;
    hide Canonical, Tokenize, WhiteSpace, Trim, TrimEnd, TrimStart, Spells, ConfigurationField;
    assert body == keyword + ([separator] + text);
    TrimIs(before, body, after);
    NoKeywordEnd(keyword);
    KeywordLengthIs(keyword, [separator] + text);
    assert body[..|keyword|] == keyword && body[|keyword| + 1..] == text;
    IsCommentIff(keyword);
    SpellsIff(keyword, "host");
    SpellsIff(keyword, "match");
    SpellsIff(keyword, "include");
    FiledAsField(keyword);
  }

  /** Arguments of whatever characters can be written in quotes. */
  lemma QuotedLineMeans(before: string, keyword: string, separator: char, args: seq<string>, after: string)
    requires AllWhite(before) && AllWhite(after) && IsKeyword(keyword) && !IsComment(keyword)
    requires separator in {' ', '\t', '='} && args != []
    ensures
      var line := ParseLine(before + (keyword + [separator] + JoinQuoted(args)) + after);
      line.Ok? && Means(keyword, args, line.value)
  {
    SplitUndoesQuoting(args);
    QuotedEnds(args);
    hide ParseLine, Means, Tokenize, IsComment;
    LineMeans(before, keyword, separator, JoinQuoted(args), after);
  }

  lemma {:induction false} QuotedEnds(args: seq<string>)
    requires args != []
    ensures JoinQuoted(args) != "" && JoinQuoted(args)[|JoinQuoted(args)| - 1] == '"'
  {
    if |args| == 1 {
    } else {
      QuotedEnds(args[1..]);
    }
  }

  /** A keyword alone lacks its arguments. */
  lemma KeywordAlone(before: string, keyword: string, after: string)
    requires AllWhite(before) && AllWhite(after) && IsKeyword(keyword) && !IsComment(keyword)
    ensures ParseLine(before + keyword + after) == Err(MissingArgument)
  {
    hide Canonical, WhiteSpace, Trim, TrimEnd, TrimStart;
    TrimIs(before, keyword, after);
    NoKeywordEnd(keyword);
    assert keyword + "" == keyword;
    KeywordLengthIs(keyword, "");
    IsCommentIff(keyword);
    assert keyword[..|keyword|] == keyword;
    assert Tokenize("") == Ok([]);
  }

  /** Blank lines, comments, and lines that start with an equals sign say nothing. */
  lemma EmptyLines(before: string, text: string)
    requires AllWhite(before)
    ensures ParseLine(before) == Ok(EmptyLine)
    ensures ParseLine(before + "#" + text) == Ok(EmptyLine)
    ensures ParseLine(before + "=" + text) == Ok(EmptyLine)
  {
    assert before + "" + "" == before;
    TrimIs(before, "", "");
    StartsWith(before, '#', text);
    StartsWith(before, '=', text);
  }

  lemma StartsWith(before: string, c: char, text: string)
    requires AllWhite(before) && (c == '#' || c == '=')
    ensures ParseLine(before + [c] + text) == Ok(EmptyLine)
  {
    hide WhiteSpace;
    assert !WhiteSpace(c) by {
      PlainCharacters();
    }
    assert before + [c] + text == before + ([c] + text);
    TrimStartIs(before, [c] + text);
    TrimEndKeeps([c] + text);
    var line := Trim(before + [c] + text);
    if c == '#' {
      var n := KeywordLength(line);
      assert n > 0 && line[..n][0] == '#';
      IsCommentIff(line[..n]);
    }
  }

  lemma PlainCharacters()
    ensures !WhiteSpace('#') && !WhiteSpace('=')
  {
  }

  lemma {:induction false} TrimEndKeeps(s: string)
    requires s != "" && !WhiteSpace(s[0])
    ensures TrimEnd(s) != "" && TrimEnd(s)[0] == s[0]
  {
    if |s| > 1 && WhiteSpace(s[|s| - 1]) {
      TrimEndKeeps(s[..|s| - 1]);
    }
  }

  // ------------------------------------------------------------------ host patterns

  /** A name that no pattern character occurs in. */
  ghost predicate Literal(name: string) {
    && (forall i :: 0 <= i < |name| ==> name[i] != '*' && name[i] != '?')
    && (name != "" ==> name[0] != '!')
  }

  lemma {:induction false} PlainPattern(pattern: string, text: string)
    requires forall i :: 0 <= i < |pattern| ==> pattern[i] != '*' && pattern[i] != '?'
    ensures WildMatch(pattern, text) <==> pattern == text
    decreases |pattern|
  {
    if pattern == "" {
    } else {
      assert forall i :: 0 <= i < |pattern[1..]| ==> pattern[1..][i] == pattern[i + 1];
      if text != "" {
        PlainPattern(pattern[1..], text[1..]);
        assert pattern == [pattern[0]] + pattern[1..] && text == [text[0]] + text[1..];
      }
    }
  }

  /** A star stands for any text. */
  lemma {:induction false} StarIff(pattern: string, text: string)
    ensures WildMatch("*" + pattern, text) <==> exists k :: 0 <= k <= |text| && WildMatch(pattern, text[k..])
    decreases |text|
  {
    assert ("*" + pattern)[1..] == pattern && text[0..] == text;
    if text == "" {
    } else {
      StarIff(pattern, text[1..]);
      if WildMatch("*" + pattern, text[1..]) {
        var k :| 0 <= k <= |text[1..]| && WildMatch(pattern, text[1..][k..]);
        assert text[k + 1..] == text[1..][k..];
      }
      if k :| 1 <= k <= |text| && WildMatch(pattern, text[k..]) {
        assert text[1..][k - 1..] == text[k..];
      }
    }
  }

  /** A question mark stands for one character, and any other for itself. */
  lemma OneCharacter(c: char, pattern: string, text: string)
    requires c != '*'
    ensures WildMatch([c] + pattern, text) <==>
            text != "" && (c == '?' || c == text[0]) && WildMatch(pattern, text[1..])
  {
    assert ([c] + pattern)[1..] == pattern;
  }

  /** An exclamation mark in front turns a pattern round. */
  lemma Negated(host: string, pattern: string)
    requires pattern != "" ==> pattern[0] != '!'
    ensures MatchOnePattern(host, "!" + pattern) <==> !MatchOnePattern(host, pattern)
  {
    assert ("!" + pattern)[1..] == pattern;
  }

  /** A host line with names takes effect for exactly those; without a host, it does not. */
  lemma NamesMatch(host: Option<string>, names: seq<string>)
    requires forall i :: 0 <= i < |names| ==> Literal(names[i])
    ensures EvaluateHostMatch(host, names) <==> host.Some? && host.value in names
  {
    if host.Some? {
      forall i | 0 <= i < |names| ensures MatchOnePattern(host.value, names[i]) <==> host.value == names[i] {
        PlainPattern(names[i], host.value);
      }
      if host.value in names {
        assert MatchOnePattern(host.value, host.value);
      }
      if arg :| arg in names && MatchOnePattern(host.value, arg) {
        var i :| 0 <= i < |names| && names[i] == arg;
      }
    }
  }

  // -------------------------------------------------------------- a setting below a host

  /** A file with a host line and a setting gives that setting to the hosts named, and nothing to any other. */
  lemma SettingBelowHost(env: Env, name: string, hostLine: string, line: string, names: seq<string>, keyword: string,
                         args: seq<string>)
    requires name in env.library.files && env.library.files[name] == [hostLine, line]
    requires ParseLine(hostLine) == Ok(Host(names)) && ParseLine(line) == Ok(Generic(keyword, args))
    requires forall i :: 0 <= i < |names| ==> Literal(names[i])
    ensures
      var named := env.host.Some? && env.host.value in names;
      ParseFileFor(env, name) ==
        Ok(ParseState(named, if named then map[keyword := Setting(name, 2, args)] else map[]))
  {
    hide ParseLine, EvaluateHostMatch;
    NamesMatch(env.host, names);
    var st0 := ParseState(true, map[]);
    var st1 := Apply(env.host, name, 1, Host(names), st0);
    var st2 := Apply(env.host, name, 2, Generic(keyword, args), st1);
    var lines := [hostLine, line];
    assert ParseLines(env, name, lines, 2, 0, st2) == Ok(st2);
    assert ParseLines(env, name, lines, 1, 0, st1) == Ok(st2);
    assert ParseLines(env, name, lines, 0, 0, st0) == Ok(st2);
  }

  /** "Host other" and "rx 1M", for another host and for that one. */
  lemma OtherHostsBlock(env: Env, name: string)
    requires name in env.library.files && env.library.files[name] == ["Host other", "rx 1M"]
    ensures env.host == Some("me") ==> ParseFileFor(env, name) == Ok(ParseState(false, map[]))
    ensures env.host == Some("other") ==>
              ParseFileFor(env, name) == Ok(ParseState(true, map["rx" := Setting(name, 2, ["1M"])]))
  {
    HostOther();
    RxOne();
    hide ParseLine, ParseFileFor;
    SettingBelowHost(env, name, "Host other", "rx 1M", ["other"], "rx", ["1M"]);
  }

  lemma HostOther()
    ensures ParseLine("Host other") == Ok(Host(["other"]))
  {
    assert "" + ("Host" + [' '] + "other") + "" == "Host other";
    WordIsOne("other");
    assert Spells("Host", "host");
    assert IsKeyword("Host") && !IsComment("Host");
    hide ParseLine, Tokenize, Spells;
    LineMeans("", "Host", ' ', "other", "");
  }

  lemma RxOne()
    ensures ParseLine("rx 1M") == Ok(Generic("rx", ["1M"]))
  {
    assert "" + ("rx" + [' '] + "1M") + "" == "rx 1M";
    WordIsOne("1M");
    assert IsKeyword("rx") && !IsComment("rx");
    assert !Spells("rx", "host") && !Spells("rx", "match") && !Spells("rx", "include");
    assert FIELD_NAMES[0] == "rx" && WithoutMarks("rx") == "rx" && Spells("rx", "rx");
    assert SpellsField("rx", 0);
    hide ParseLine, Tokenize, Spells, SpellsField;
    LineMeans("", "rx", ' ', "1M", "");
  }

  /** A word without marks of its own is one argument. */
  lemma WordIsOne(word: string)
    requires word != "" && forall i :: 0 <= i < |word| ==> Tokenizer.Literal(word[i]) && word[i] != '#'
    ensures Tokenize(word) == Ok([word])
  {
    var c, rest := word[0], word[1..];
    assert forall i :: 0 <= i < |rest| ==> rest[i] == word[i + 1];
    assert "" + [c] == [c] && Next(Between([]), c) == Within([], [c], UNQUOTED, false);
    WordRuns([], [c], rest);
    assert [c] + rest == word;
    var none: seq<string> := [];
    assert none + [word] == [word];
  }

  lemma {:induction false} WordRuns(done: seq<string>, before: string, word: string)
    requires forall i :: 0 <= i < |word| ==> Tokenizer.Literal(word[i])
    ensures Run(Within(done, before, UNQUOTED, false), word) == Within(done, before + word, UNQUOTED, false)
    decreases |word|
  {
    if word == "" {
      assert before + word == before;
    } else {
      assert forall i :: 0 <= i < |word[1..]| ==> word[1..][i] == word[i + 1];
      WordRuns(done, before + [word[0]], word[1..]);
      assert before + [word[0]] + word[1..] == before + word;
    }
  }
}
