/**
 The primitive encodings of BARE (draft-devault-bare-11, section 2) that the
 protocol messages are built from. A reader takes the bytes that remain and
 returns a value with the bytes it did not consume.
 */
module Bare {
  import opened Wrappers
  import opened Numbers

  datatype Error = EndOfInput | VarintOverflow | BadDiscriminant | BadUtf8 | TooLong

  type Read<T> = Result<(T, Bytes), Error>

  // ---------------------------------------------------------------- varints

  /** One more than the largest value a varint reader can still accept after it consumed `i` bytes. */
  function VarintRoom(i: nat): (room: nat)
    requires i <= 9
    ensures room >= 2
    decreases 9 - i
  {
    if i == 9 then 2 else 128 * VarintRoom(i + 1)
  }

  lemma VarintRoomIsU64()
    ensures VarintRoom(0) == U64_BOUND
  {
  }

  /** Seven bits a byte, least significant first; the top bit says that more follows. */
  function PutUint(n: nat): (b: Bytes)
    ensures b != []
  {
    if n < 128 then [n] else [128 + n % 128] + PutUint(n / 128)
  }

  /** Reads a varint of which `i` bytes have been consumed already: at most ten bytes, and the tenth at most 1. */
  function ReadVarint(b: Bytes, i: nat): (r: Read<nat>)
    requires i <= 9
    ensures r.Ok? ==> r.value.0 < VarintRoom(i) && |r.value.1| < |b| && r.value.1 == b[|b| - |r.value.1|..]
    decreases 9 - i
  {
    if b == [] then Err(EndOfInput)
    else if b[0] < 128 then
      if i == 9 && b[0] > 1 then Err(VarintOverflow) else VarintLastByte(b[0], i); Ok((b[0], b[1..]))
    else if i == 9 then Err(VarintOverflow)
    else
      var (high, rest) :- ReadVarint(b[1..], i + 1);
      Ok((b[0] - 128 + 128 * high, rest))
  }

  lemma VarintLastByte(last: byte, i: nat)
    requires i <= 9 && last < 128 && (i == 9 ==> last <= 1)
    ensures last < VarintRoom(i)
  {
  }

  function ReadUint(b: Bytes): (r: Read<u64>)
    ensures r.Ok? ==> |r.value.1| < |b|
  {
    VarintRoomIsU64();
    var (n, rest) :- ReadVarint(b, 0);
    Ok((n, rest))
  }

  lemma {:induction false} VarintRoundTrip(n: nat, i: nat, rest: Bytes)
    requires i <= 9 && n < VarintRoom(i)
    ensures ReadVarint(PutUint(n) + rest, i) == Ok((n, rest))
    ensures |PutUint(n)| <= 10 - i
    decreases 9 - i
  {
    var b := PutUint(n) + rest;
    if n < 128 {
      assert b[1..] == rest;
    } else {
      assert i < 9;
      assert VarintRoom(i) == 128 * VarintRoom(i + 1);
      assert b == [128 + n % 128] + (PutUint(n / 128) + rest);
      assert b[1..] == PutUint(n / 128) + rest;
      VarintRoundTrip(n / 128, i + 1, rest);
    }
  }

  /** Reading undoes writing for every 64-bit value, which takes at most ten bytes. */
  lemma UintRoundTrip(n: u64, rest: Bytes)
    ensures ReadUint(PutUint(n) + rest) == Ok((n, rest))
    ensures |PutUint(n)| <= 10
  {
    VarintRoomIsU64();
    VarintRoundTrip(n, 0, rest);
  }

  ghost predicate Continues(b: Bytes, n: nat) {
    n <= |b| && forall i :: 0 <= i < n ==> b[i] >= 128
  }

  lemma ContinuesTail(b: Bytes, n: nat)
    requires b != [] && n > 0
    ensures Continues(b, n) <==> b[0] >= 128 && Continues(b[1..], n - 1)
  {
    assert b == [b[0]] + b[1..];
  }

  lemma {:induction false} VarintFailures(b: Bytes, i: nat)
    requires i <= 9
    ensures ReadVarint(b, i) == Err(EndOfInput) <==> |b| <= 9 - i && Continues(b, |b|)
    ensures ReadVarint(b, i) == Err(VarintOverflow) <==> |b| > 9 - i && Continues(b, 9 - i) && b[9 - i] > 1
    ensures ReadVarint(b, i).Ok? || ReadVarint(b, i) == Err(EndOfInput) || ReadVarint(b, i) == Err(VarintOverflow)
    decreases 9 - i
  {
    assert Continues(b, 0);
    hide Continues, VarintRoom, ReadVarint;
    FirstByteOf(b, i);
    if b != [] && i < 9 {
      ContinuesTail(b, |b|);
      ContinuesTail(b, 9 - i);
      if b[0] >= 128 {
        VarintFailures(b[1..], i + 1);
      }
    }
  }

  lemma FirstByteOf(b: Bytes, i: nat)
    requires i <= 9
    ensures b == [] ==> ReadVarint(b, i) == Err(EndOfInput)
    ensures b != [] && i == 9 ==> if b[0] > 1 then ReadVarint(b, i) == Err(VarintOverflow) else ReadVarint(b, i).Ok?
    ensures b != [] && i < 9 && b[0] < 128 ==> ReadVarint(b, i).Ok?
    ensures b != [] && i < 9 && b[0] >= 128 ==>
              match ReadVarint(b[1..], i + 1)
              case Ok(_) => ReadVarint(b, i).Ok?
              case Err(e) => ReadVarint(b, i) == Err(e)
  {
    hide VarintRoom;
  }

  /**
   A varint ends too early if all of up to nine bytes continue, and overflows if
   nine do and the tenth is above one.
   */
  lemma UintFailsIff(b: Bytes)
    ensures ReadUint(b) == Err(EndOfInput) <==> |b| <= 9 && Continues(b, |b|)
    ensures ReadUint(b) == Err(VarintOverflow) <==> |b| >= 10 && Continues(b, 9) && b[9] > 1
    ensures ReadUint(b).Ok? || ReadUint(b) == Err(EndOfInput) || ReadUint(b) == Err(VarintOverflow)
  {
    VarintFailures(b, 0);
  }

  // ---------------------------------------------------- zigzag signed values

  function Zigzag(i: i64): u64 {
    if i >= 0 then 2 * i else -2 * i - 1
  }

  function Unzigzag(u: u64): i64 {
    if u % 2 == 0 then u / 2 else -(u + 1) / 2
  }

  lemma ZigzagBijection(i: i64, u: u64)
    ensures Unzigzag(Zigzag(i)) == i
    ensures Zigzag(Unzigzag(u)) == u
  {
  }

  // ------------------------------------------------------- fixed-size values

  function PutU8(n: byte): Bytes {
    [n]
  }

  function ReadU8(b: Bytes): (r: Read<byte>)
    ensures r.Ok? ==> |r.value.1| < |b|
  {
    if b == [] then Err(EndOfInput) else Ok((b[0], b[1..]))
  }

  function PutBool(f: bool): Bytes {
    [if f then 1 else 0]
  }

  function ReadBool(b: Bytes): (r: Read<bool>)
    ensures r.Ok? ==> |r.value.1| < |b|
  {
    if b == [] then Err(EndOfInput)
    else if b[0] > 1 then Err(BadDiscriminant)
    else Ok((b[0] == 1, b[1..]))
  }

  function PutU16(n: u16): Bytes {
    [n % 256, n / 256]
  }

  function ReadU16(b: Bytes): Read<u16> {
    if |b| < 2 then Err(EndOfInput)
    else
      var low: int, high: int := b[0], b[1];
      Ok((low + 256 * high, b[2..]))
  }

  function PutU32(n: u32): (b: Bytes)
    ensures |b| == 4
  {
    [n % 256, n / 256 % 256, n / 0x1_0000 % 256, n / 0x100_0000]
  }

  function GetU32(b: Bytes): u32
    requires |b| == 4
  {
    var b0: int, b1: int, b2: int, b3: int := b[0], b[1], b[2], b[3];
    b0 + 0x100 * b1 + 0x1_0000 * b2 + 0x100_0000 * b3
  }

  lemma U32RoundTrip(n: u32)
    ensures GetU32(PutU32(n)) == n
  {
    var q1 := n / 256;
    var q2 := q1 / 256;
    assert n == n % 256 + 256 * q1 && q1 == q1 % 256 + 256 * q2;
    assert n / 0x1_0000 == q2 && n / 0x100_0000 == q2 / 256;
  }

  /** The number that bytes stand for when the first counts least. */
  ghost function LittleEndian(b: Bytes): nat {
    if b == [] then 0 else b[0] + 256 * LittleEndian(b[1..])
  }

  lemma FirstCountsLeast(b: Bytes)
    requires b != []
    ensures LittleEndian(b) == b[0] + 256 * LittleEndian(b[1..])
  {
  }

  lemma TwoBytes(b: Bytes)
    requires |b| >= 2
    ensures LittleEndian(b) == b[0] + 256 * (b[1] + 256 * LittleEndian(b[2..]))
  {
    FirstCountsLeast(b);
    FirstCountsLeast(b[1..]);
    assert b[1..][1..] == b[2..];
  }

  /** Numbers of a fixed size are read so. */
  lemma FixedSizeIsRead(b: Bytes)
    ensures |b| == 4 ==> GetU32(b) == LittleEndian(b)
    ensures |b| < 2 ==> ReadU16(b) == Err(EndOfInput)
    ensures |b| >= 2 ==>
              && ReadU16(b).Ok? && ReadU16(b).value.1 == b[2..]
              && ReadU16(b).value.0 == LittleEndian(b[..2])
  {
    assert LittleEndian([]) == 0;
    hide LittleEndian;
    if |b| == 4 {
      TwoBytes(b);
      TwoBytes(b[2..]);
      assert b[2..][2..] == [];
    }
    if |b| >= 2 {
      TwoBytes(b[..2]);
      assert b[..2][2..] == [];
    }
  }

  /** And they are written so. */
  lemma FixedSizeIsLittleEndian(n: u16, m: u32)
    ensures |PutU16(n)| == 2 && LittleEndian(PutU16(n)) == n
    ensures |PutU32(m)| == 4 && LittleEndian(PutU32(m)) == m
  {
    FixedSizeIsRead(PutU16(n));
    assert PutU16(n)[..2] == PutU16(n);
    FixedSizeIsRead(PutU32(m));
    U32RoundTrip(m);
  }

  // ------------------------------------------------------------- byte arrays

  /** A length, then that many bytes. */
  function PutData(d: Bytes): Bytes {
    PutUint(|d|) + d
  }

  function ReadData(b: Bytes): (r: Read<Bytes>)
    ensures r.Ok? ==> |r.value.1| < |b| && |r.value.0| < U64_BOUND
  {
    var (n, rest) :- ReadUint(b);
    if |rest| < n then Err(EndOfInput) else Ok((rest[..n], rest[n..]))
  }

  lemma DataRoundTrip(d: Bytes, rest: Bytes)
    requires |d| < U64_BOUND
    ensures ReadData(PutData(d) + rest) == Ok((d, rest))
  {
    assert PutData(d) + rest == PutUint(|d|) + (d + rest);
    UintRoundTrip(|d|, d + rest);
  }

  /** Data that ends before its length says so is not taken. */
  lemma DataEndsEarly(n: u64, d: Bytes)
    requires |d| < n
    ensures ReadData(PutUint(n) + d) == Err(EndOfInput)
  {
    UintRoundTrip(n, d);
  }

  // ---------------------------------------------------------- optional values

  function PutOption<T>(o: Option<T>, put: T -> Bytes): Bytes {
    match o
    case None => [0]
    case Some(v) => [1] + put(v)
  }

  function ReadOption<T>(b: Bytes, read: Bytes -> Read<T>): Read<Option<T>> {
    if b == [] then Err(EndOfInput)
    else if b[0] == 0 then Ok((None, b[1..]))
    else if b[0] == 1 then
      var (v, rest) :- read(b[1..]);
      Ok((Some(v), rest))
    else Err(BadDiscriminant)
  }

  /** `read` undoes `put`, whatever follows. */
  ghost predicate Inverts<T(!new)>(put: T -> Bytes, read: Bytes -> Read<T>) {
    forall v: T, rest: Bytes :: read(put(v) + rest) == Ok((v, rest))
  }

  /** A flag is one byte, zero or one, and so is the mark before an optional value. */
  lemma FlagsAre<T>(b: Bytes, f: bool, rest: Bytes, read: Bytes -> Read<T>)
    ensures ReadBool(b) == Ok((f, rest)) <==> b == [if f then 1 else 0] + rest
    ensures ReadBool(b).Err? ==> ReadBool(b) == Err(if b == [] then EndOfInput else BadDiscriminant)
    ensures ReadU8(b).Err? <==> ReadU8(b) == Err(EndOfInput)
    ensures
      var r := ReadOption(b, read);
      && (r.Ok? <==> b != [] && (b[0] == 0 || (b[0] == 1 && read(b[1..]).Ok?)))
      && (r == Err(EndOfInput) <== b == []) && (r == Err(BadDiscriminant) <== b != [] && b[0] > 1)
      && (r.Ok? && b[0] == 0 ==> r.value == (None, b[1..]))
      && (r.Ok? && b[0] == 1 ==> r.value == (Some(read(b[1..]).value.0), read(b[1..]).value.1))
  {
    if b != [] {
      assert b == [b[0]] + b[1..];
    }
  }

  lemma OptionRoundTrip<T(!new)>(o: Option<T>, put: T -> Bytes, read: Bytes -> Read<T>, rest: Bytes)
    requires Inverts(put, read)
    ensures ReadOption(PutOption(o, put) + rest, read) == Ok((o, rest))
  {
    var b := PutOption(o, put) + rest;
    match o {
      case None =>
        assert b[1..] == rest;
      case Some(v) =>
        assert b[1..] == put(v) + rest;
    }
  }
}
