/**
 The bytes of the first version of the client message, and of its original
 form, in which the attribute list was one reserved byte.
 */
module MessageWire {
  import opened Wrappers
  import opened Numbers
  import opened Bare
  import opened PortRanges
  import opened Tags
  import Variants
  import opened Messages
  import opened Framing
  import Conf = Configurations

  // ------------------------------------------------------------------ fields

  function PutU64(n: u64): Bytes {
    PutUint(n)
  }

  function PutConnectionType(t: ConnectionType): Bytes {
    [match t case Ipv4 => 4 case Ipv6 => 6]
  }

  function ReadConnectionType(b: Bytes): Read<ConnectionType> {
    var (n, rest) :- ReadU8(b);
    if n == 4 then Ok((Ipv4, rest)) else if n == 6 then Ok((Ipv6, rest)) else Err(BadDiscriminant)
  }

  function PutPortRange(r: PortRange): Bytes {
    PutU16(r.begin) + PutU16(r.end)
  }

  function ReadPortRange(b: Bytes): Read<PortRange> {
    var (begin, rest) :- ReadU16(b);
    var (end, rest) :- ReadU16(rest);
    Ok((PortRange(begin, end), rest))
  }

  function PutAlgorithm(cc: CongestionController): Bytes {
    PutUint(AlgorithmCode(cc))
  }

  function ReadAlgorithm(b: Bytes): Read<CongestionController> {
    var (n, rest) :- ReadUint(b);
    match AlgorithmFromCode(n)
    case None => Err(BadDiscriminant)
    case Some(cc) => Ok((cc, rest))
  }

  lemma U16RoundTrip(n: u16, rest: Bytes)
    ensures ReadU16(PutU16(n) + rest) == Ok((n, rest))
  {
    var b := PutU16(n) + rest;
    assert b[2..] == rest;
    assert b[0] == n % 256 && b[1] == n / 256;
  }

  lemma U16Inverts()
    ensures Inverts(PutU16, ReadU16)
  {
    hide PutU16, ReadU16;
    forall n: u16, rest: Bytes ensures ReadU16(PutU16(n) + rest) == Ok((n, rest)) {
      U16RoundTrip(n, rest);
    }
  }

  lemma U64Inverts()
    ensures Inverts(PutU64, ReadUint)
  {
    forall n: u64, rest: Bytes ensures ReadUint(PutU64(n) + rest) == Ok((n, rest)) {
      UintRoundTrip(n, rest);
    }
  }

  lemma PortRangeInverts()
    ensures Inverts(PutPortRange, ReadPortRange)
  {
    forall r: PortRange, rest: Bytes ensures ReadPortRange(PutPortRange(r) + rest) == Ok((r, rest)) {
      U16Inverts();
      assert PutPortRange(r) + rest == PutU16(r.begin) + (PutU16(r.end) + rest);
    }
  }

  lemma AlgorithmInverts()
    ensures Inverts(PutAlgorithm, ReadAlgorithm)
  {
    forall cc: CongestionController, rest: Bytes ensures ReadAlgorithm(PutAlgorithm(cc) + rest) == Ok((cc, rest)) {
      UintRoundTrip(AlgorithmCode(cc), rest);
    }
  }

  // ------------------------------------------------ all fields but the last one

  /** The fields that both forms of the message share, followed by `tail`. */
  function PutShared(m: ClientMessageV1, tail: Bytes): Bytes {
    PutData(m.cert) + (PutConnectionType(m.connectionType) + (PutOption(m.port, PutPortRange) + (PutBool(m.showConfig)
      + PutLimits(m, tail))))
  }

  function PutLimits(m: ClientMessageV1, tail: Bytes): Bytes {
    PutOption(m.bandwidthToServer, PutU64) + (PutOption(m.bandwidthToClient, PutU64) + (PutOption(m.rtt, PutU16)
      + (PutOption(m.congestion, PutAlgorithm) + (PutOption(m.initialCongestionWindow, PutU64)
      + (PutOption(m.timeout, PutU16) + tail)))))
  }

  datatype Limits = Limits(
    bandwidthToServer: Option<u64>, bandwidthToClient: Option<u64>, rtt: Option<u16>,
    congestion: Option<CongestionController>, initialCongestionWindow: Option<u64>, timeout: Option<u16>)

  function ReadLimits(b: Bytes): Read<Limits> {
    var (toServer, rest) :- ReadOption(b, ReadUint);
    var (toClient, rest) :- ReadOption(rest, ReadUint);
    var (rtt, rest) :- ReadOption(rest, ReadU16);
    var (congestion, rest) :- ReadOption(rest, ReadAlgorithm);
    var (window, rest) :- ReadOption(rest, ReadUint);
    var (timeout, rest) :- ReadOption(rest, ReadU16);
    Ok((Limits(toServer, toClient, rtt, congestion, window, timeout), rest))
  }

  /** Everything up to the attributes, which are left empty. */
  function ReadShared(b: Bytes): Read<ClientMessageV1> {
    var (cert, rest) :- ReadData(b);
    var (connectionType, rest) :- ReadConnectionType(rest);
    var (port, rest) :- ReadOption(rest, ReadPortRange);
    var (showConfig, rest) :- ReadBool(rest);
    var (l, rest) :- ReadLimits(rest);
    Ok((ClientMessageV1(cert, connectionType, port, showConfig, l.bandwidthToServer, l.bandwidthToClient, l.rtt,
                        l.congestion, l.initialCongestionWindow, l.timeout, []), rest))
  }

  lemma LimitsRoundTrip(m: ClientMessageV1, tail: Bytes)
    ensures ReadLimits(PutLimits(m, tail)) ==
            Ok((Limits(m.bandwidthToServer, m.bandwidthToClient, m.rtt, m.congestion, m.initialCongestionWindow,
              m.timeout),
                tail))
  {
    hide ReadOption, PutOption, Inverts;
    U16Inverts();
    U64Inverts();
    AlgorithmInverts();
    var t6 := PutOption(m.timeout, PutU16) + tail;
    var t5 := PutOption(m.initialCongestionWindow, PutU64) + t6;
    var t4 := PutOption(m.congestion, PutAlgorithm) + t5;
    var t3 := PutOption(m.rtt, PutU16) + t4;
    var t2 := PutOption(m.bandwidthToClient, PutU64) + t3;
    OptionRoundTrip(m.bandwidthToServer, PutU64, ReadUint, t2);
    OptionRoundTrip(m.bandwidthToClient, PutU64, ReadUint, t3);
    OptionRoundTrip(m.rtt, PutU16, ReadU16, t4);
    OptionRoundTrip(m.congestion, PutAlgorithm, ReadAlgorithm, t5);
    OptionRoundTrip(m.initialCongestionWindow, PutU64, ReadUint, t6);
    OptionRoundTrip(m.timeout, PutU16, ReadU16, tail);
  }

  lemma SharedRoundTrip(m: ClientMessageV1, tail: Bytes)
    requires |m.cert| < U64_BOUND
    ensures ReadShared(PutShared(m, tail)) == Ok((m.(attributes := []), tail))
  {
    hide ReadOption, PutOption, Inverts, ReadData, PutData, ReadLimits, PutLimits;
    var limits := PutLimits(m, tail);
    var t3 := PutBool(m.showConfig) + limits;
    var t2 := PutOption(m.port, PutPortRange) + t3;
    var t1 := PutConnectionType(m.connectionType) + t2;
    DataRoundTrip(m.cert, t1);
    assert t1[1..] == t2;
    PortRangeInverts();
    OptionRoundTrip(m.port, PutPortRange, ReadPortRange, t3);
    assert t3[1..] == limits;
    LimitsRoundTrip(m, tail);
  }

  // ------------------------------------------------------- the two whole forms

  /** On the wire the enum is a discriminant, then the contents. */
  const V1_DISCRIMINANT: u64 := 1

  function EncodeV1(m: ClientMessageV1): Bytes {
    PutUint(V1_DISCRIMINANT) + PutShared(m, PutTagList(m.attributes))
  }

  datatype OriginalV1 = OriginalV1(shared: ClientMessageV1, extension: byte)

  function EncodeOriginal(o: OriginalV1): Bytes {
    PutUint(V1_DISCRIMINANT) + PutShared(o.shared, PutU8(o.extension))
  }

  /** Reads a message from a payload; whatever bytes follow the message are ignored. */
  function DecodeV1(payload: Bytes): Result<ClientMessageV1, Bare.Error> {
    var (discriminant, rest) :- ReadUint(payload);
    if discriminant != V1_DISCRIMINANT then Err(BadDiscriminant)
    else
      var (shared, rest) :- ReadShared(rest);
      var (attributes, rest) :- ReadTagList(rest);
      Ok(shared.(attributes := attributes))
  }

  function DecodeOriginal(payload: Bytes): Result<OriginalV1, Bare.Error> {
    var (discriminant, rest) :- ReadUint(payload);
    if discriminant != V1_DISCRIMINANT then Err(BadDiscriminant)
    else
      var (shared, rest) :- ReadShared(rest);
      var (extension, rest) :- ReadU8(rest);
      Ok(OriginalV1(shared, extension))
  }

  ghost predicate Sendable(m: ClientMessageV1) {
    |m.cert| < U64_BOUND && WellFormedTags(m.attributes)
  }

  lemma V1RoundTrip(m: ClientMessageV1)
    requires Sendable(m)
    ensures DecodeV1(EncodeV1(m)) == Ok(m)
  {
    hide ReadUint, PutUint, ReadShared, PutShared, ReadTagList, PutTagList;
    var tail := PutTagList(m.attributes);
    UintRoundTrip(V1_DISCRIMINANT, PutShared(m, tail));
    SharedRoundTrip(m, tail);
    assert tail == tail + [];
    TagListRoundTrip(m.attributes, []);
  }

  lemma KnownNumbers()
    ensures PutU64(5) == [5] && PutU64(300) == [172, 2]
    ensures PutU16(0x0607) == [7, 6] && PutU16(9) == [9, 0] && PutAlgorithm(Conf.Bbr) == [1]
  {
    assert PutUint(2) == [2];
  }

  lemma KnownAttributes()
    ensures PutTagList([Tagged(11, Variants.Unsigned(2))]) == [1, 11, 3, 2]
  {
    var one := [Tagged(11, Variants.Unsigned(2))];
    assert one[1..] == [];
    assert PutTagged(one[0]) == [11, 3, 2];
  }

  const KNOWN: ClientMessageV1 :=
    ClientMessageV1([7, 8], Ipv6, Some(PortRange(0x0102, 0x0304)), true, Some(5), None, Some(0x0607), Some(Conf.Bbr),
                    Some(300), Some(9), [Tagged(11, Variants.Unsigned(2))])

  lemma KnownLimits(tail: Bytes)
    ensures PutLimits(KNOWN, tail) == [1, 5] + ([0] + ([1, 7, 6] + ([1, 1] + ([1, 172, 2] + ([1, 9, 0] + tail)))))
  {
    KnownNumbers();
    hide PutU64, PutU16, PutAlgorithm;
  }

  lemma KnownShared(tail: Bytes)
    ensures PutShared(KNOWN, tail) == [2, 7, 8] + ([6] + ([1, 2, 1, 4, 3] + ([1] + PutLimits(KNOWN, tail))))
  {
    assert PutData([7, 8]) == [2, 7, 8];
    assert PutPortRange(PortRange(0x0102, 0x0304)) == [2, 1, 4, 3];
    assert PutOption(KNOWN.port, PutPortRange) == [1, 2, 1, 4, 3];
    hide PutLimits, PutData, PutPortRange, PutOption;
  }

  /** A message with something in nearly every field, byte for byte: the order of the fields, and the form of each. */
  lemma KnownMessage()
    ensures
      EncodeV1(KNOWN) ==
        [1] + ([2, 7, 8] + ([6] + ([1, 2, 1, 4, 3] + ([1] +
          ([1, 5] + ([0] + ([1, 7, 6] + ([1, 1] + ([1, 172, 2] + ([1, 9, 0] + [1, 11, 3, 2]))))))))))
  {
    KnownAttributes();
    KnownShared([1, 11, 3, 2]);
    KnownLimits([1, 11, 3, 2]);
    assert PutUint(V1_DISCRIMINANT) == [1];
    hide PutShared, PutLimits, PutTagList, PutUint;
  }

  /**
   A server from before the attribute list reads every field it knows, and the
   first byte of the list as its reserved byte, which is zero only for the
   empty list.
   */
  lemma OriginalReadsV1(m: ClientMessageV1)
    requires Sendable(m)
    ensures
      var r := DecodeOriginal(EncodeV1(m));
      r.Ok? && r.value.shared == m.(attributes := []) && (r.value.extension == 0 <==> m.attributes == [])
  {
    var tail := PutTagList(m.attributes);
    assert tail[0] == PutUint(|m.attributes|)[0];
    assert tail[0] == 0 <==> |m.attributes| == 0;
    hide ReadUint, PutUint, ReadShared, PutShared, PutTagList;
    UintRoundTrip(V1_DISCRIMINANT, PutShared(m, tail));
    SharedRoundTrip(m, tail);
  }

  /** A message from before the attribute list, with its reserved byte zero, has an empty list. */
  lemma V1ReadsOriginal(o: OriginalV1)
    requires |o.shared.cert| < U64_BOUND && o.extension == 0
    ensures DecodeV1(EncodeOriginal(o)) == Ok(o.shared.(attributes := []))
  {
    var tail := PutU8(0);
    assert tail == PutTagList([]);
    assert tail == tail + [];
    hide ReadUint, PutUint, ReadShared, PutShared, ReadTagList, PutTagList;
    UintRoundTrip(V1_DISCRIMINANT, PutShared(o.shared, tail));
    SharedRoundTrip(o.shared, tail);
    TagListRoundTrip([], []);
  }

  /** A payload with another discriminant is not this message, and a connection type is one of the two. */
  lemma OthersAreRefused(payload: Bytes, b: Bytes, t: ConnectionType, rest: Bytes)
    ensures payload != [] && payload[0] < 128 && payload[0] != 1 ==>
              DecodeV1(payload) == Err(BadDiscriminant) && DecodeOriginal(payload) == Err(BadDiscriminant)
    ensures ReadConnectionType(b) == Ok((t, rest)) <==> b == [if t.Ipv4? then 4 else 6] + rest
  {
    hide ReadShared;
    if b != [] {
      assert b == [b[0]] + b[1..];
    }
  }

  /** Through framing the old reader also ends at the next frame, however long the list that it skipped. */
  lemma OriginalReaderFindsNextFrame(m: ClientMessageV1, rest: Bytes)
    requires Sendable(m) && |EncodeV1(m)| <= 1_048_576
    ensures
      var r := ReadFrame(Frame(EncodeV1(m)) + rest, DEFAULT_LIMIT);
      && r == Ok((EncodeV1(m), rest))
      && DecodeOriginal(r.value.0).Ok? && DecodeOriginal(r.value.0).value.shared == m.(attributes := [])
  {
    hide EncodeV1, DecodeOriginal, Frame, ReadFrame;
    FrameRoundTrip(EncodeV1(m), rest, DEFAULT_LIMIT);
    OriginalReadsV1(m);
  }
}
