/**
 The self-describing value that attributes carry, and its wire form: a
 discriminant, then the contents; lists and maps nest to any depth.
 Strings are held as their UTF-8 bytes, maps as entries in key order.
 */
module Variants {
  import opened Wrappers
  import opened Numbers
  import opened Bare
  import opened Utf8

  datatype Variant =
    | Empty
    | Boolean(b: bool)
    | Signed(i: i64)
    | Unsigned(u: u64)
    | String(utf8: Bytes)
    | Data(data: Bytes)
    | List(items: seq<Variant>)
    | Map(entries: seq<Entry>)

  datatype Entry = Entry(key: Bytes, value: Variant)

  // ---------------------------------------------------------------- coercion

  /** Integers are cast modulo 2^64, booleans become 0 or 1, everything else is 0. */
  function CoerceUnsigned(v: Variant): u64 {
    match v
    case Signed(i) => if i >= 0 then i else i + U64_BOUND
    case Unsigned(u) => u
    case Boolean(b) => if b then 1 else 0
    case _ => 0
  }

  function CoerceSigned(v: Variant): i64 {
    match v
    case Signed(i) => i
    case Unsigned(u) => if u < I64_BOUND then u else u - U64_BOUND
    case Boolean(b) => if b then 1 else 0
    case _ => 0
  }

  /** The two coercions are the same 64 bits read with and without a sign. */
  lemma CoercionsAgree(v: Variant)
    ensures CoerceUnsigned(v) % U64_BOUND == CoerceSigned(v) % U64_BOUND
    ensures CoerceSigned(v) == CoerceSigned(Unsigned(CoerceUnsigned(v)))
    ensures CoerceUnsigned(v) == CoerceUnsigned(Signed(CoerceSigned(v)))
  {
    var s, u := CoerceSigned(v), CoerceUnsigned(v);
    assert u == s || u == s + U64_BOUND;
    assert s < 0 ==> (s + U64_BOUND) % U64_BOUND == s % U64_BOUND;
  }

  // ---------------------------------------------------------------- map keys

  /** Byte-wise lexicographic order, the order of the map's keys. */
  predicate Less(a: Bytes, b: Bytes)
    decreases |a|
  {
    if b == [] then false
    else if a == [] then true
    else a[0] < b[0] || (a[0] == b[0] && Less(a[1..], b[1..]))
  }

  lemma {:induction false} LessIsAsymmetric(a: Bytes, b: Bytes)
    requires Less(a, b)
    ensures a != b && !Less(b, a)
    decreases |a|
  {
    if a != [] && a[0] == b[0] {
      LessIsAsymmetric(a[1..], b[1..]);
    }
  }

  lemma {:induction false} LessIsTotal(a: Bytes, b: Bytes)
    ensures a == b || Less(a, b) || Less(b, a)
    decreases |a|
  {
    if a != [] && b != [] && a[0] == b[0] {
      LessIsTotal(a[1..], b[1..]);
      assert a == [a[0]] + a[1..] && b == [b[0]] + b[1..];
    }
  }

  lemma {:induction false} LessIsTransitive(a: Bytes, b: Bytes, c: Bytes)
    requires Less(a, b) && Less(b, c)
    ensures Less(a, c)
    decreases |a|
  {
    if a != [] && a[0] == b[0] && b[0] == c[0] {
      LessIsTransitive(a[1..], b[1..], c[1..]);
    }
  }

  ghost predicate Sorted(entries: seq<Entry>) {
    forall i, j :: 0 <= i < j < |entries| ==> Less(entries[i].key, entries[j].key)
  }

  /** Insertion into the ordered map: a later value for a key replaces the earlier one. */
  function Insert(entries: seq<Entry>, e: Entry): (r: seq<Entry>)
    ensures forall x :: x in r ==> x == e || x in entries
  {
    if entries == [] then [e]
    else if e.key == entries[0].key then [e] + entries[1..]
    else if Less(e.key, entries[0].key) then [e] + entries
    else [entries[0]] + Insert(entries[1..], e)
  }

  lemma {:induction false} InsertKeepsOrder(entries: seq<Entry>, e: Entry)
    requires Sorted(entries)
    ensures Sorted(Insert(entries, e))
  {
    if entries == [] {
    } else if e.key == entries[0].key {
    } else if Less(e.key, entries[0].key) {
      forall j | 0 <= j < |entries| ensures Less(e.key, entries[j].key) {
        if j > 0 { LessIsTransitive(e.key, entries[0].key, entries[j].key); }
      }
    } else {
      LessIsTotal(e.key, entries[0].key);
      var tail := Insert(entries[1..], e);
      InsertKeepsOrder(entries[1..], e);
      forall j | 0 <= j < |tail| ensures Less(entries[0].key, tail[j].key) {
        assert tail[j] in tail;
      }
    }
  }

  /** Under its key is the new value, and under the others what there was. */
  lemma {:induction false} InsertIs(entries: seq<Entry>, e: Entry, x: Entry)
    requires Sorted(entries)
    ensures x in Insert(entries, e) <==> x == e || (x in entries && x.key != e.key)
  {
    if entries == [] {
    } else {
      var first, rest := entries[0], entries[1..];
      assert entries == [first] + rest;
      if first.key == e.key || Less(e.key, first.key) {
        forall j | 0 <= j < |rest| ensures rest[j].key != e.key {
          assert Less(first.key, entries[j + 1].key);
          if Less(e.key, first.key) { LessIsTransitive(e.key, first.key, rest[j].key); }
          LessIsAsymmetric(e.key, rest[j].key);
        }
        if Less(e.key, first.key) { LessIsAsymmetric(e.key, first.key); }
      } else {
        InsertIs(rest, e, x);
      }
    }
  }

  lemma {:induction false} InsertLast(entries: seq<Entry>, e: Entry)
    requires forall i :: 0 <= i < |entries| ==> Less(entries[i].key, e.key)
    ensures Insert(entries, e) == entries + [e]
  {
    if entries == [] {
    } else {
      LessIsAsymmetric(entries[0].key, e.key);
      InsertLast(entries[1..], e);
    }
  }

  // ----------------------------------------------------------- wellformedness

  /** What the types of the program guarantee of every value. */
  ghost predicate WellFormed(v: Variant) {
    match v
    case String(s) => ValidUtf8(s) && |s| < U64_BOUND
    case Data(d) => |d| < U64_BOUND
    case List(items) => |items| < U64_BOUND && forall x :: x in items ==> WellFormed(x)
    case Map(entries) => |entries| < U64_BOUND && Sorted(entries) && forall e :: e in entries ==> WellFormedEntry(e)
    case _ => true
  }

  ghost predicate WellFormedEntry(e: Entry) {
    ValidUtf8(e.key) && |e.key| < U64_BOUND && WellFormed(e.value)
  }

  // ----------------------------------------------------------------- encoding

  function Encode(v: Variant): (b: Bytes)
    ensures b != []
    decreases v
  {
    match v
    case Empty => [0]
    case Boolean(f) => [1] + PutBool(f)
    case Signed(i) => [2] + PutUint(Zigzag(i))
    case Unsigned(u) => [3] + PutUint(u)
    case String(s) => [4] + PutData(s)
    case Data(d) => [5] + PutData(d)
    case List(items) => [6] + PutUint(|items|) + EncodeItems(items)
    case Map(entries) => [7] + PutUint(|entries|) + EncodeEntries(entries)
  }

  function EncodeItems(items: seq<Variant>): Bytes
    decreases items
  {
    if items == [] then [] else Encode(items[0]) + EncodeItems(items[1..])
  }

  function EncodeEntries(entries: seq<Entry>): Bytes
    decreases entries
  {
    if entries == [] then [] else EncodeEntry(entries[0]) + EncodeEntries(entries[1..])
  }

  function EncodeEntry(e: Entry): Bytes
    decreases e
  {
    PutData(e.key) + Encode(e.value)
  }

  // ----------------------------------------------------------------- decoding

  function ReadString(b: Bytes): (r: Read<Bytes>)
    ensures r.Ok? ==> |r.value.1| < |b| && ValidUtf8(r.value.0) && |r.value.0| < U64_BOUND
  {
    var (s, rest) :- ReadData(b);
    if ValidUtf8(s) then Ok((s, rest)) else Err(BadUtf8)
  }

  /** Only text that is valid is taken. */
  lemma StringIsRead(s: Bytes, rest: Bytes)
    requires |s| < U64_BOUND
    ensures ReadString(PutData(s) + rest) == if ValidUtf8(s) then Ok((s, rest)) else Err(BadUtf8)
  {
    DataRoundTrip(s, rest);
  }

  function Decode(b: Bytes): (r: Read<Variant>)
    ensures r.Ok? ==> |r.value.1| < |b|
    decreases |b|, 0
  {
    var (tag, rest) :- ReadUint(b);
    if tag == 6 then
      var (n, rest) :- ReadUint(rest);
      var (items, rest) :- DecodeItems(rest, n);
      Ok((List(items), rest))
    else if tag == 7 then
      var (n, rest) :- ReadUint(rest);
      var (entries, rest) :- DecodeEntries(rest, n, []);
      Ok((Map(entries), rest))
    else DecodeScalar(tag, rest)
  }

  /** The contents that follow the discriminant of a value that holds no other values. */
  function DecodeScalar(tag: u64, b: Bytes): (r: Read<Variant>)
    ensures r.Ok? ==> |r.value.1| <= |b| && WellFormed(r.value.0)
  {
    match tag
    case 0 => Ok((Empty, b))
    case 1 =>
      var (f, rest) :- ReadBool(b);
      Ok((Boolean(f), rest))
    case 2 =>
      var (u, rest) :- ReadUint(b);
      Ok((Signed(Unzigzag(u)), rest))
    case 3 =>
      var (u, rest) :- ReadUint(b);
      Ok((Unsigned(u), rest))
    case 4 =>
      var (s, rest) :- ReadString(b);
      Ok((String(s), rest))
    case 5 =>
      var (d, rest) :- ReadData(b);
      Ok((Data(d), rest))
    case _ => Err(BadDiscriminant)
  }

  /** There are eight kinds of values. */
  lemma OtherKindsAreRefused(b: Bytes)
    requires b != [] && 8 <= b[0] < 128
    ensures Decode(b) == Err(BadDiscriminant)
  {
  }

  function DecodeItems(b: Bytes, n: nat): (r: Read<seq<Variant>>)
    ensures r.Ok? ==> |r.value.1| <= |b| && |r.value.0| == n
    decreases |b|, 1
  {
    if n == 0 then Ok(([], b))
    else
      var (v, rest) :- Decode(b);
      var (vs, rest) :- DecodeItems(rest, n - 1);
      Ok(([v] + vs, rest))
  }

  /** Reads `n` more entries into the ordered map `entries`. */
  function DecodeEntries(b: Bytes, n: nat, entries: seq<Entry>): (r: Read<seq<Entry>>)
    ensures r.Ok? ==> |r.value.1| <= |b|
    decreases |b|, 1
  {
    if n == 0 then Ok((entries, b))
    else
      var (key, rest) :- ReadString(b);
      var (value, rest) :- Decode(rest);
      DecodeEntries(rest, n - 1, Insert(entries, Entry(key, value)))
  }

  // --------------------------------------------------------------- round trip

  /** Byte vectors that the program's own tests pin down. */
  lemma KnownIntegers()
    ensures Encode(Signed(42)) == [2, 84] && Encode(Signed(-2)) == [2, 3] && Encode(Unsigned(42)) == [3, 42]
    ensures Encode(Signed(1234)) == [2, 164, 19]
  {
    assert PutUint(19) == [19];
  }

  lemma KnownList()
    ensures Encode(List([Boolean(true), Unsigned(0), String([119, 104, 101, 101])])) ==
            [6, 3, 1, 1, 3, 0, 4, 4, 119, 104, 101, 101]
  {
    var items := [Boolean(true), Unsigned(0), String([119, 104, 101, 101])];
    assert items[1..] == [items[1], items[2]] && items[1..][1..] == [items[2]] && [items[2]][1..] == [];
    assert EncodeItems([items[2]]) == [4, 4, 119, 104, 101, 101] + EncodeItems([]);
    assert EncodeItems(items[1..]) == [3, 0] + EncodeItems([items[2]]);
  }

  const FOO: Entry := Entry([102, 111, 111], String([98, 97, 114]))
  const BAZ: Entry := Entry([98, 97, 122], Signed(42))

  lemma KnownOrder()
    ensures Insert(Insert([], FOO), BAZ) == [BAZ, FOO] == Insert(Insert([], BAZ), FOO)
  {
    assert Less(BAZ.key, FOO.key) && !Less(FOO.key, BAZ.key);
    assert Insert([], FOO) == [FOO] && Insert([], BAZ) == [BAZ];
  }

  lemma KnownEntries()
    ensures EncodeEntry(FOO) == [3, 102, 111, 111, 4, 3, 98, 97, 114]
    ensures EncodeEntry(BAZ) == [3, 98, 97, 122, 2, 84]
  {
  }

  /** The entries go in key order, whichever order they were inserted in. */
  lemma KnownMap()
    ensures Encode(Map(Insert(Insert([], FOO), BAZ))) ==
            [7, 2, 3, 98, 97, 122, 2, 84, 3, 102, 111, 111, 4, 3, 98, 97, 114]
    ensures Encode(Map(Insert(Insert([], BAZ), FOO))) == Encode(Map(Insert(Insert([], FOO), BAZ)))
  {
    KnownOrder();
    KnownEntries();
    hide Insert, EncodeEntry, Less;
    assert [BAZ, FOO][1..] == [FOO] && [FOO][1..] == [];
    assert EncodeEntries([FOO]) == EncodeEntry(FOO) + [];
  }

  lemma {:induction false} RoundTrip(v: Variant, rest: Bytes)
    requires WellFormed(v)
    ensures Decode(Encode(v) + rest) == Ok((v, rest))
    decreases v
  {
    match v {
      case List(items) =>
        var body := EncodeItems(items);
        assert Encode(v) + rest == PutUint(6) + (PutUint(|items|) + (body + rest));
        UintRoundTrip(6, PutUint(|items|) + (body + rest));
        UintRoundTrip(|items|, body + rest);
        ItemsRoundTrip(items, rest);
      case Map(entries) =>
        var body := EncodeEntries(entries);
        assert Encode(v) + rest == PutUint(7) + (PutUint(|entries|) + (body + rest));
        UintRoundTrip(7, PutUint(|entries|) + (body + rest));
        UintRoundTrip(|entries|, body + rest);
        assert [] + entries == entries;
        EntriesRoundTrip(entries, [], rest);
      case _ =>
        ScalarRoundTrip(v, rest);
    }
  }

  lemma ScalarBodyRoundTrip(v: Variant, rest: Bytes)
    requires WellFormed(v) && !v.List? && !v.Map?
    ensures DecodeScalar(Encode(v)[0], Encode(v)[1..] + rest) == Ok((v, rest))
  {
    hide ReadUint, PutUint, ReadData, PutData, ValidUtf8;
    var body := Encode(v)[1..];
    match v {
      case Empty => assert body + rest == rest;
      case Boolean(f) => assert (body + rest)[1..] == rest;
      case Signed(i) => UintRoundTrip(Zigzag(i), rest); ZigzagBijection(i, 0);
      case Unsigned(u) => UintRoundTrip(u, rest);
      case String(s) => DataRoundTrip(s, rest);
      case Data(d) => DataRoundTrip(d, rest);
    }
  }

  lemma ScalarTag(v: Variant)
    requires !v.List? && !v.Map?
    ensures Encode(v)[0] < 6 && PutUint(Encode(v)[0]) == [Encode(v)[0]]
  {
  }

  lemma ScalarRoundTrip(v: Variant, rest: Bytes)
    requires WellFormed(v) && !v.List? && !v.Map?
    ensures Decode(Encode(v) + rest) == Ok((v, rest))
  {
    hide ReadUint, PutUint, Encode, DecodeScalar, WellFormed, DecodeItems, DecodeEntries;
    var tag, body := Encode(v)[0], Encode(v)[1..];
    ScalarTag(v);
    ScalarBodyRoundTrip(v, rest);
    assert Encode(v) + rest == PutUint(tag) + (body + rest);
    UintRoundTrip(tag, body + rest);
  }

  lemma {:induction false} ItemsRoundTrip(items: seq<Variant>, rest: Bytes)
    requires forall x :: x in items ==> WellFormed(x)
    ensures DecodeItems(EncodeItems(items) + rest, |items|) == Ok((items, rest))
    decreases items
  {
    hide Decode, Encode, WellFormed;
    if items == [] {
      assert EncodeItems(items) + rest == rest;
    } else {
      var tail := EncodeItems(items[1..]) + rest;
      assert EncodeItems(items) + rest == Encode(items[0]) + tail;
      assert items[0] in items && forall x :: x in items[1..] ==> x in items;
      RoundTrip(items[0], tail);
      ItemsRoundTrip(items[1..], rest);
      assert items == [items[0]] + items[1..];
    }
  }

  /** Reading entries in key order appends each to the map built so far. */
  lemma {:induction false} EntriesRoundTrip(entries: seq<Entry>, before: seq<Entry>, rest: Bytes)
    requires forall e :: e in entries ==> WellFormedEntry(e)
    requires Sorted(before + entries)
    ensures DecodeEntries(EncodeEntries(entries) + rest, |entries|, before) == Ok((before + entries, rest))
    decreases entries
  {
    hide Decode, Encode, WellFormed, PutData, ReadData;
    if entries == [] {
      assert EncodeEntries(entries) + rest == rest;
      assert before + entries == before;
    } else {
      var e, tail := entries[0], EncodeEntries(entries[1..]) + rest;
      assert EncodeEntries(entries) + rest == PutData(e.key) + (Encode(e.value) + tail);
      assert WellFormedEntry(e) && forall x :: x in entries[1..] ==> x in entries;
      DataRoundTrip(e.key, Encode(e.value) + tail);
      RoundTrip(e.value, tail);
      forall i | 0 <= i < |before| ensures Less(before[i].key, e.key) {
        assert (before + entries)[i] == before[i] && (before + entries)[|before|] == e;
      }
      InsertLast(before, e);
      assert before + entries == before + [e] + entries[1..];
      assert ReadString(EncodeEntries(entries) + rest) == Ok((e.key, Encode(e.value) + tail));
      EntriesRoundTrip(entries[1..], before + [e], rest);
    }
  }

  /** No two values share an encoding, and no encoding is a proper prefix of another. */
  lemma EncodingIsPrefixFree(v: Variant, w: Variant, restV: Bytes, restW: Bytes)
    requires WellFormed(v) && WellFormed(w)
    requires Encode(v) + restV == Encode(w) + restW
    ensures v == w && restV == restW
  {
    RoundTrip(v, restV);
    RoundTrip(w, restW);
  }

  // ------------------------------------------------ what a reader can deliver

  /** Whatever bytes arrive, a value that is accepted satisfies what its type promises. */
  lemma {:induction false} DecodedIsWellFormed(b: Bytes)
    requires Decode(b).Ok?
    ensures WellFormed(Decode(b).value.0)
    decreases |b|, 0
  {
    var (tag, rest) := ReadUint(b).value;
    if tag == 6 {
      var (n, rest) := ReadUint(rest).value;
      DecodedItemsAreWellFormed(rest, n);
    } else if tag == 7 {
      var (n, rest) := ReadUint(rest).value;
      DecodedEntriesAreWellFormed(rest, n, []);
    }
  }

  lemma {:induction false} DecodedItemsAreWellFormed(b: Bytes, n: nat)
    requires DecodeItems(b, n).Ok?
    ensures forall x :: x in DecodeItems(b, n).value.0 ==> WellFormed(x)
    decreases |b|, 1
  {
    hide Decode;
    if n == 0 {
    } else {
      DecodedIsWellFormed(b);
      DecodedItemsAreWellFormed(Decode(b).value.1, n - 1);
    }
  }

  lemma {:induction false} DecodedEntriesAreWellFormed(b: Bytes, n: nat, entries: seq<Entry>)
    requires DecodeEntries(b, n, entries).Ok?
    requires Sorted(entries) && forall e :: e in entries ==> WellFormedEntry(e)
    ensures Sorted(DecodeEntries(b, n, entries).value.0)
    ensures |DecodeEntries(b, n, entries).value.0| <= |entries| + n
    ensures forall e :: e in DecodeEntries(b, n, entries).value.0 ==> WellFormedEntry(e)
    decreases |b|, 1
  {
    hide Decode;
    if n == 0 {
    } else {
      var (key, afterKey) := ReadString(b).value;
      var (value, rest) := Decode(afterKey).value;
      DecodedIsWellFormed(afterKey);
      InsertKeepsOrder(entries, Entry(key, value));
      InsertGrowsByOne(entries, Entry(key, value));
      DecodedEntriesAreWellFormed(rest, n - 1, Insert(entries, Entry(key, value)));
    }
  }

  lemma {:induction false} InsertGrowsByOne(entries: seq<Entry>, e: Entry)
    ensures |Insert(entries, e)| <= |entries| + 1
  {
    if entries == [] {
    } else {
      InsertGrowsByOne(entries[1..], e);
    }
  }
}
