/** Ranges of UDP ports: their text form and the negotiation between two endpoints. */
module PortRanges {
  import opened Wrappers
  import opened Numbers

  /** `0-0` means "no preference". */
  datatype PortRange = PortRange(begin: u16, end: u16) {
    predicate IsDefault() {
      begin == 0 && begin == end
    }

    /** Every range that text can denote: increasing, and port 0 only on its own. */
    predicate Valid() {
      begin <= end && (begin == 0 ==> end == 0)
    }

    /** May the server bind port `p`? */
    predicate Admits(p: u16) {
      IsDefault() || begin <= p <= end
    }
  }

  datatype Error = Unsatisfiable | NotAPort | NotIncreasing | ZeroInRange

  // -------------------------------------------------------------- negotiation

  function Combine(ours: PortRange, theirs: PortRange): Result<PortRange, Error> {
    if ours.IsDefault() then Ok(theirs)
    else if theirs.IsDefault() then Ok(ours)
    else
      var begin := Max(ours.begin, theirs.begin);
      var end := Min(ours.end, theirs.end);
      if begin <= end then Ok(PortRange(begin, end)) else Err(Unsatisfiable)
  }

  /** The result admits exactly the ports that both sides admit; there is none just when such a port does not exist. */
  lemma CombineIsIntersection(a: PortRange, b: PortRange)
    requires a.Valid() && b.Valid()
    ensures Combine(a, b).Ok? ==>
              Combine(a, b).value.Valid() &&
              forall p: u16 :: Combine(a, b).value.Admits(p) <==> a.Admits(p) && b.Admits(p)
    ensures Combine(a, b) == Err(Unsatisfiable) <==> forall p: u16 :: !(a.Admits(p) && b.Admits(p))
    ensures Combine(a, b).Err? ==> Combine(a, b) == Err(Unsatisfiable)
  {
    if Combine(a, b).Ok? {
      var r := Combine(a, b).value;
      assert a.Admits(r.begin) && b.Admits(r.begin);
    }
  }

  function CombineBoth(a: Result<PortRange, Error>, b: Result<PortRange, Error>): Result<PortRange, Error> {
    var x :- a;
    var y :- b;
    Combine(x, y)
  }

  /** On valid ranges, failure included, combination is an idempotent commutative monoid. */
  lemma CombineLaws(a: PortRange, b: PortRange, c: PortRange)
    requires a.Valid() && b.Valid() && c.Valid()
    ensures Combine(a, a) == Ok(a)
    ensures Combine(a, PortRange(0, 0)) == Ok(a) == Combine(PortRange(0, 0), a)
    ensures Combine(a, b) == Combine(b, a)
    ensures CombineBoth(Combine(a, b), Ok(c)) == CombineBoth(Ok(a), Combine(b, c))
  {
  }

  // --------------------------------------------------------------- text form

  function Digit(d: nat): char
    requires d < 10
  {
    ('0' as int + d) as char
  }

  predicate IsDigit(c: char) {
    '0' <= c <= '9'
  }

  function PrintNat(n: nat): (s: string)
    ensures s != [] && forall i :: 0 <= i < |s| ==> IsDigit(s[i])
  {
    if n < 10 then [Digit(n)] else PrintNat(n / 10) + [Digit(n % 10)]
  }

  function DigitsValue(s: string): nat
    requires forall i :: 0 <= i < |s| ==> IsDigit(s[i])
  {
    if s == [] then 0
    else
      var last := s[|s| - 1];
      assert IsDigit(last);
      10 * DigitsValue(s[..|s| - 1]) + (last as int - '0' as int)
  }

  predicate AllDigits(s: string) {
    s != [] && forall i :: 0 <= i < |s| ==> IsDigit(s[i])
  }

  /** An unsigned integer below `bound`; one leading plus sign is accepted. */
  function ParseUnsigned(s: string, bound: nat): (r: Option<nat>)
    ensures r.Some? ==> r.value < bound
  {
    var digits := if |s| > 1 && s[0] == '+' then s[1..] else s;
    if AllDigits(digits) && DigitsValue(digits) < bound then Some(DigitsValue(digits)) else None
  }

  /** The position of the first `-`, or the length. */
  function DashIndex(s: string): (i: nat)
    ensures i <= |s| && (i < |s| ==> s[i] == '-')
    ensures forall j :: 0 <= j < i ==> s[j] != '-'
  {
    if s == [] || s[0] == '-' then 0 else 1 + DashIndex(s[1..])
  }

  function Parse(s: string): Result<PortRange, Error> {
    var single := ParseUnsigned(s, U16_BOUND);
    var dash := DashIndex(s);
    if single.Some? then Ok(PortRange(single.value, single.value))
    else if ParseUnsigned(s, U64_BOUND).Some? then Err(NotAPort)
    else if dash == |s| then Err(NotAPort)
    else
      match (ParseUnsigned(s[..dash], U16_BOUND), ParseUnsigned(s[dash + 1..], U16_BOUND))
      case (Some(a), Some(b)) =>
        if a > b then Err(NotIncreasing)
        else if a == 0 && b != 0 then Err(ZeroInRange)
        else Ok(PortRange(a, b))
      case _ => Err(NotAPort)
  }

  function Print(r: PortRange): string {
    if r.begin == r.end then PrintNat(r.begin) else PrintNat(r.begin) + "-" + PrintNat(r.end)
  }

  lemma {:induction false} PrintedDigitsValue(n: nat)
    ensures DigitsValue(PrintNat(n)) == n
  {
    if n >= 10 {
      var s := PrintNat(n);
      assert s[..|s| - 1] == PrintNat(n / 10);
      PrintedDigitsValue(n / 10);
    }
  }

  lemma PrintedNatParses(n: nat, bound: nat)
    requires n < bound
    ensures ParseUnsigned(PrintNat(n), bound) == Some(n)
  {
    PrintedDigitsValue(n);
    assert IsDigit(PrintNat(n)[0]);
  }

  /** Text is only accepted when it denotes a valid range. */
  lemma ParsedIsValid(s: string)
    ensures Parse(s).Ok? ==> Parse(s).value.Valid()
  {
  }

  lemma ParseUndoesPrint(r: PortRange)
    requires r.Valid()
    ensures Parse(Print(r)) == Ok(r)
  {
    PrintedNatParses(r.begin, U16_BOUND);
    PrintedNatParses(r.end, U16_BOUND);
    if r.begin != r.end {
      var a, b := PrintNat(r.begin), PrintNat(r.end);
      var s := a + "-" + b;
      assert s[|a|] == '-' && s[0] == a[0];
      assert forall j :: 0 <= j < |a| ==> s[j] == a[j];
      assert !AllDigits(s) && !AllDigits(s[1..]) by {
        assert s[1..][|a| - 1] == '-';
      }
      assert DashIndex(s) == |a|;
      assert s[..|a|] == a && s[|a| + 1..] == b;
    }
  }

  // ----------------------------------------------------------- what is accepted

  ghost function Zeros(n: nat): string {
    seq(n, i => '0')
  }

  /** The ways to write a number: a plus sign if one likes, and any number of zeros in front. */
  ghost function Written(signed: bool, zeros: nat, n: nat): string {
    (if signed then "+" else "") + (Zeros(zeros) + PrintNat(n))
  }

  ghost predicate Numeral(s: string, n: nat) {
    exists signed, zeros :: s == Written(signed, zeros, n)
  }

  lemma {:induction false} PaddedValue(zeros: nat, n: nat)
    ensures AllDigits(Zeros(zeros) + PrintNat(n)) && DigitsValue(Zeros(zeros) + PrintNat(n)) == n
    decreases n
  {
    var s := Zeros(zeros) + PrintNat(n);
    if n < 10 {
      assert s[..|s| - 1] == Zeros(zeros);
      ZerosValue(zeros);
    } else {
      assert s[..|s| - 1] == Zeros(zeros) + PrintNat(n / 10);
      PaddedValue(zeros, n / 10);
    }
  }

  lemma {:induction false} ZerosValue(zeros: nat)
    ensures DigitsValue(Zeros(zeros)) == 0
  {
    if zeros > 0 {
      assert Zeros(zeros)[..zeros - 1] == Zeros(zeros - 1);
      ZerosValue(zeros - 1);
    }
  }

  lemma {:induction false} DigitsArePadded(s: string) returns (zeros: nat)
    requires AllDigits(s)
    ensures s == Zeros(zeros) + PrintNat(DigitsValue(s))
    decreases |s|
  {
    var init, last := s[..|s| - 1], s[|s| - 1];
    assert IsDigit(last) && s == init + [last];
    if init == "" {
      zeros := 0;
      assert DigitsValue(init) == 0;
    } else {
      assert forall i :: 0 <= i < |init| ==> init[i] == s[i];
      zeros := DigitsArePadded(init);
      if DigitsValue(init) == 0 {
        assert init == Zeros(zeros + 1);
        zeros := zeros + 1;
      }
    }
  }

  lemma WrittenParses(signed: bool, zeros: nat, n: nat, bound: nat)
    ensures ParseUnsigned(Written(signed, zeros, n), bound) == if n < bound then Some(n) else None
  {
    var digits := Zeros(zeros) + PrintNat(n);
    PaddedValue(zeros, n);
    assert IsDigit(digits[0]);
    hide DigitsValue, PrintNat, Zeros;
    if signed {
      assert ("+" + digits)[1..] == digits;
    } else {
      assert "" + digits == digits;
    }
  }

  lemma ParsedIsWritten(s: string, bound: nat)
    requires ParseUnsigned(s, bound).Some?
    ensures Numeral(s, ParseUnsigned(s, bound).value)
  {
    hide DigitsValue, PrintNat, Zeros;
    var signed := |s| > 1 && s[0] == '+';
    var digits := if signed then s[1..] else s;
    var zeros := DigitsArePadded(digits);
    assert s == Written(signed, zeros, ParseUnsigned(s, bound).value);
  }

  lemma UnsignedIff(s: string, bound: nat, n: nat)
    ensures ParseUnsigned(s, bound) == Some(n) <==> Numeral(s, n) && n < bound
  {
    hide ParseUnsigned, Written;
    if signed, zeros :| s == Written(signed, zeros, n) {
      WrittenParses(signed, zeros, n, bound);
    }
    if ParseUnsigned(s, bound) == Some(n) {
      ParsedIsWritten(s, bound);
    }
  }

  /** Two numerals with a dash between them. */
  ghost predicate Pair(s: string, m: nat, n: nat) {
    exists a, b :: s == a + "-" + b && Numeral(a, m) && Numeral(b, n)
  }

  lemma NoDash(s: string, n: nat)
    requires Numeral(s, n)
    ensures s != "" && '-' !in s
  {
    var signed, zeros :| s == Written(signed, zeros, n);
    PaddedValue(zeros, n);
  }

  lemma FirstDash(a: string, b: string)
    requires '-' !in a
    ensures DashIndex(a + "-" + b) == |a|
  {
    var s := a + "-" + b;
    assert s[|a|] == '-';
    assert forall j :: 0 <= j < |a| ==> s[j] == a[j];
  }

  lemma PairIff(s: string, m: u16, n: u16)
    ensures
      var dash := DashIndex(s);
      Pair(s, m, n) <==>
      dash < |s| && ParseUnsigned(s[..dash], U16_BOUND) == Some(m) && ParseUnsigned(s[dash + 1..], U16_BOUND) == Some(n)
  {
    hide ParseUnsigned, Numeral, DashIndex;
    var dash := DashIndex(s);
    if a, b :| s == a + "-" + b && Numeral(a, m) && Numeral(b, n) {
      PairParses(a, b, m, n);
    }
    if dash < |s| {
      var a, b := s[..dash], s[dash + 1..];
      UnsignedIff(a, U16_BOUND, m);
      UnsignedIff(b, U16_BOUND, n);
      assert s == a + "-" + b;
    }
  }

  lemma PairParses(a: string, b: string, m: u16, n: u16)
    requires Numeral(a, m) && Numeral(b, n)
    ensures
      var s, dash := a + "-" + b, |a|;
      && DashIndex(s) == dash < |s|
      && ParseUnsigned(s[..dash], U16_BOUND) == Some(m) && ParseUnsigned(s[dash + 1..], U16_BOUND) == Some(n)
  {
    hide ParseUnsigned, Numeral, DashIndex;
    var s := a + "-" + b;
    NoDash(a, m);
    FirstDash(a, b);
    UnsignedIff(a, U16_BOUND, m);
    UnsignedIff(b, U16_BOUND, n);
    assert s[..|a|] == a && s[|a| + 1..] == b;
  }

  /**
   Text is a port when it is a numeral, and a range when it is two with a dash
   between them, that do not decrease, and of which the first may only be zero if
   both are. Whatever is neither is refused.
   */
  lemma ParsesIff(s: string, m: u16, n: u16)
    ensures Numeral(s, n) ==> Parse(s) == Ok(PortRange(n, n))
    ensures Pair(s, m, n) ==>
              Parse(s) ==
              if m > n then Err(NotIncreasing)
              else if m == 0 < n then Err(ZeroInRange)
              else Ok(PortRange(m, n))
    ensures Parse(s) == Ok(PortRange(m, n)) ==> Pair(s, m, n) || (m == n && Numeral(s, n))
    ensures Parse(s) in {Err(NotIncreasing), Err(ZeroInRange)} ==> exists a: u16, b: u16 :: Pair(s, a, b)
  {
    hide Numeral, Pair;
    UnsignedIff(s, U16_BOUND, n);
    PairIff(s, m, n);
    if Pair(s, m, n) {
      PairIsNoNumber(s, m, n);
    }
    var dash := DashIndex(s);
    if Parse(s) in {Err(NotIncreasing), Err(ZeroInRange)} {
      var a := ParseUnsigned(s[..dash], U16_BOUND).value;
      var b := ParseUnsigned(s[dash + 1..], U16_BOUND).value;
      PairIff(s, a, b);
    }
  }

  lemma PairIsNoNumber(s: string, m: nat, n: nat)
    requires Pair(s, m, n)
    ensures ParseUnsigned(s, U16_BOUND).None? && ParseUnsigned(s, U64_BOUND).None?
  {
    hide Numeral;
    var a, b :| s == a + "-" + b && Numeral(a, m) && Numeral(b, n);
    NoDash(a, m);
    assert s[|a|] == '-' && s[1..][|a| - 1] == '-';
  }
}
