/** Path text: the splitting and joining that the two ends do, with '/' as the separator. */
module Paths {
  import opened Wrappers

  /** The parts between separators, empty ones included. */
  function Split(s: string): (parts: seq<string>)
    ensures |parts| >= 1
  {
    if s == "" then [""]
    else
      var rest := Split(s[1..]);
      if s[0] == '/' then [""] + rest else [[s[0]] + rest[0]] + rest[1..]
  }

  function Join(names: seq<string>): string {
    if names == [] then "" else if |names| == 1 then names[0] else names[0] + "/" + Join(names[1..])
  }

  /** What a directory entry can be called. */
  predicate IsName(name: string) {
    name != "" && name != "." && name != ".." && '/' !in name
  }

  ghost predicate AreNames(names: seq<string>) {
    forall i :: 0 <= i < |names| ==> IsName(names[i])
  }

  lemma {:induction false} SplitAtSeparator(a: string, b: string)
    ensures Split(a + "/" + b) == Split(a) + Split(b)
  {
    if a == "" {
      assert (a + "/" + b)[1..] == b;
    } else {
      assert (a + "/" + b)[1..] == a[1..] + "/" + b;
      SplitAtSeparator(a[1..], b);
    }
  }

  lemma {:induction false} SplitName(name: string)
    requires '/' !in name
    ensures Split(name) == [name]
  {
    if name == "" {
    } else {
      SplitName(name[1..]);
      assert name == [name[0]] + name[1..];
    }
  }

  lemma {:induction false} PartsHaveNoSeparator(s: string)
    ensures forall i :: 0 <= i < |Split(s)| ==> '/' !in Split(s)[i]
  {
    if s == "" {
    } else {
      PartsHaveNoSeparator(s[1..]);
    }
  }

  /** Splitting undoes joining, for names; joining no names at all gives one empty part. */
  lemma {:induction false} SplitUndoesJoin(names: seq<string>)
    requires AreNames(names)
    ensures Split(Join(names)) == if names == [] then [""] else names
  {
    if names == [] {
    } else {
      assert IsName(names[0]);
      SplitName(names[0]);
      if |names| > 1 {
        assert forall i :: 0 <= i < |names[1..]| ==> names[1..][i] == names[i + 1];
        SplitUndoesJoin(names[1..]);
        SplitAtSeparator(names[0], Join(names[1..]));
      }
    }
  }

  predicate EndsWithSeparator(s: string) {
    s != "" && s[|s| - 1] == '/'
  }

  predicate IsAbsolute(s: string) {
    s != "" && s[0] == '/'
  }

  function JoinRemote(base: string, leaf: string): string {
    if base == "" then leaf else if EndsWithSeparator(base) then base + leaf else base + "/" + leaf
  }

  /** Appending to a path: an absolute path replaces it. */
  function Push(base: string, leaf: string): string {
    if IsAbsolute(leaf) then leaf else JoinRemote(base, leaf)
  }

  /** The parts of a base that something is appended to: a final separator adds none. */
  function BaseParts(base: string): seq<string> {
    if base == "" then []
    else if EndsWithSeparator(base) then Split(base[..|base| - 1])
    else Split(base)
  }

  lemma JoinRemoteParts(base: string, leaf: string)
    requires base != "" || leaf != ""
    ensures Split(JoinRemote(base, leaf)) == BaseParts(base) + Split(leaf)
    ensures base != "" ==> IsAbsolute(JoinRemote(base, leaf)) == IsAbsolute(base)
  {
    if base != "" {
      var trunk := if EndsWithSeparator(base) then base[..|base| - 1] else base;
      SplitAtSeparator(trunk, leaf);
      assert JoinRemote(base, leaf) == trunk + "/" + leaf;
    }
  }

  // ------------------------------------------------------- normalised components

  /** Without empty parts and "." */
  function Plain(parts: seq<string>): seq<string> {
    if parts == [] then []
    else (if parts[0] == "" || parts[0] == "." then [] else [parts[0]]) + Plain(parts[1..])
  }

  lemma {:induction false} PlainAppend(a: seq<string>, b: seq<string>)
    ensures Plain(a + b) == Plain(a) + Plain(b)
  {
    if a == [] {
      assert a + b == b;
    } else {
      assert (a + b)[1..] == a[1..] + b;
      PlainAppend(a[1..], b);
    }
  }

  lemma {:induction false} PlainNames(names: seq<string>)
    requires AreNames(names)
    ensures Plain(names) == names
  {
    if names == [] {
    } else {
      assert IsName(names[0]);
      assert forall i :: 0 <= i < |names[1..]| ==> names[1..][i] == names[i + 1];
      PlainNames(names[1..]);
    }
  }

  /** The components that a path is walked by: a root, or a leading ".", counts as one. */
  function Components(s: string): seq<string> {
    (if IsAbsolute(s) then ["/"] else if Split(s)[0] == "." then ["."] else []) + Plain(Split(s))
  }

  lemma BasePartsAreParts(base: string)
    requires base != ""
    ensures BaseParts(base) != [] && BaseParts(base)[0] == Split(base)[0]
    ensures Plain(BaseParts(base)) == Plain(Split(base))
  {
    if EndsWithSeparator(base) {
      assert Plain([""]) == [] && Split("") == [""];
      hide Split, Plain;
      var trunk := base[..|base| - 1];
      SplitAtSeparator(trunk, "");
      assert base == trunk + "/" + "";
      PlainAppend(Split(trunk), [""]);
    }
  }

  /** Appending names to a path appends them to its components. */
  lemma ComponentsOfJoin(base: string, names: seq<string>)
    requires base != "" && names != [] && AreNames(names)
    ensures Components(JoinRemote(base, Join(names))) == Components(base) + names
  {
    hide Split, Plain, Join, JoinRemote, BaseParts;
    SplitUndoesJoin(names);
    JoinRemoteParts(base, Join(names));
    BasePartsAreParts(base);
    PlainAppend(BaseParts(base), names);
    PlainNames(names);
  }

  function Last<T>(s: seq<T>): T
    requires s != []
  {
    s[|s| - 1]
  }

  function Init<T>(s: seq<T>): seq<T>
    requires s != []
  {
    s[..|s| - 1]
  }

  /** The final component of a path, unless that is "..", "." or the root. */
  function FileName(s: string): Option<string> {
    var parts := Plain(Split(s));
    if parts == [] || Last(parts) == ".." then None else Some(Last(parts))
  }

  lemma {:induction false} PlainPartsAreParts(parts: seq<string>)
    ensures forall i :: 0 <= i < |Plain(parts)| ==> Plain(parts)[i] in parts && Plain(parts)[i] != ""
  {
    if parts != [] {
      PlainPartsAreParts(parts[1..]);
    }
  }

  lemma FileNameHasNoSeparator(s: string)
    ensures FileName(s).Some? ==> FileName(s).value != "" && '/' !in FileName(s).value
  {
    PlainPartsAreParts(Split(s));
    PartsHaveNoSeparator(s);
  }

  lemma FileNameOfJoin(base: string, names: seq<string>)
    requires base != "" && names != [] && AreNames(names)
    ensures FileName(JoinRemote(base, Join(names))) == Some(Last(names))
  {
    hide Split, Plain, Join, JoinRemote, BaseParts;
    SplitUndoesJoin(names);
    JoinRemoteParts(base, Join(names));
    PlainAppend(BaseParts(base), names);
    PlainNames(names);
    assert IsName(names[|names| - 1]);
    assert Last(Plain(BaseParts(base)) + names) == Last(names);
  }
}
