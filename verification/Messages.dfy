/** The versioned messages of the control protocol: construction, conversion and meaning. */
module Messages {
  import opened Wrappers
  import opened Numbers
  import opened Variants
  import opened PortRanges
  import opened Compat
  import Conf = Configurations
  import opened Tags

  type CongestionController = Conf.CongestionController
  type CredentialsType = Conf.CredentialsType

  datatype ConnectionType = Ipv4 | Ipv6

  datatype Direction = Both | ClientToServer | ServerToClient

  function AlgorithmCode(cc: CongestionController): u64 {
    match cc case Cubic => 0 case Bbr => 1 case NewReno => 2
  }

  function AlgorithmFromCode(n: u64): Option<CongestionController> {
    match n case 0 => Some(Conf.Cubic) case 1 => Some(Conf.Bbr) case 2 => Some(Conf.NewReno) case _ => None
  }

  function CredentialsCode(t: CredentialsType): u64 {
    match t case Any => 0 case X509 => 1 case RawPublicKey => 2
  }

  function DirectionCode(d: Direction): u64 {
    match d case Both => 0 case ClientToServer => 1 case ServerToClient => 2
  }

  /** Never fails: anything unexpected, or no attribute at all, is `Both`. */
  function DirectionFrom(v: Option<Variant>): Direction {
    if v.None? then Both
    else
      match CoerceUnsigned(v.value)
      case 1 => ClientToServer
      case 2 => ServerToClient
      case _ => Both
  }

  lemma DirectionSurvivesTheWire(d: Direction)
    ensures DirectionFrom(Some(Unsigned(DirectionCode(d)))) == d
  {
  }

  // ------------------------------------------------------------ client message

  datatype ClientMessageV1 = ClientMessageV1(
    cert: Bytes, connectionType: ConnectionType, port: Option<PortRange>, showConfig: bool,
    bandwidthToServer: Option<u64>, bandwidthToClient: Option<u64>, rtt: Option<u16>,
    congestion: Option<CongestionController>, initialCongestionWindow: Option<u64>, timeout: Option<u16>,
    attributes: seq<Tagged>)

  datatype ClientMessageV2 = ClientMessageV2(
    credentials: Tagged, connectionType: ConnectionType, attributes: seq<Tagged>)

  datatype ClientMessage = ClientToFollow | ClientV1(v1: ClientMessageV1) | ClientV2(v2: ClientMessageV2)

  function AsUnsigned(n: Option<u64>): Option<Variant> {
    match n case None => None case Some(v) => Some(Unsigned(v))
  }

  function Widen(n: Option<u16>): Option<u64> {
    match n case None => None case Some(v) => Some(v)
  }

  function AlgorithmAsUnsigned(cc: Option<CongestionController>): Option<Variant> {
    match cc case None => None case Some(v) => Some(Unsigned(AlgorithmCode(v)))
  }

  function BeginOf(r: Option<PortRange>): Option<u64> {
    match r case None => None case Some(v) => Some(v.begin)
  }

  function EndOf(r: Option<PortRange>): Option<u64> {
    match r case None => None case Some(v) => Some(v.end)
  }

  function Flag(f: bool): Option<Variant> {
    if f then Some(Empty) else None
  }

  /** The attributes that have an answer, in the order in which they are pushed. */
  function Attributes(answer: u64 -> Option<Variant>, codes: seq<u64>): seq<Tagged> {
    if codes == [] then []
    else Attributes(answer, codes[..|codes| - 1]) + Opt(codes[|codes| - 1], answer(codes[|codes| - 1]))
  }

  lemma {:induction false} AttributesAnswer(answer: u64 -> Option<Variant>, codes: seq<u64>, code: u64)
    ensures FindTag(Attributes(answer, codes), code) == if code in codes then answer(code) else None
  {
    if codes == [] {
    } else {
      var last := codes[|codes| - 1];
      AttributesAnswer(answer, codes[..|codes| - 1], code);
      FindTagAfterPush(Attributes(answer, codes[..|codes| - 1]), last, answer(last), code);
      assert codes == codes[..|codes| - 1] + [last];
    }
  }

  // ------------------------------------------------- client message, version 2

  /** Bandwidth towards the server: what the client can send, or else what it can receive. */
  function OutboundBandwidth(c: Conf.ConfigurationOptional): Option<u64> {
    if c.tx.None? || c.tx.value == 0 then c.rx else c.tx
  }

  /** What a version 2 message built from a configuration says under the tag `code`. */
  function ConfiguredAttribute(remoteConfig: bool, c: Conf.ConfigurationOptional, code: u64): Option<Variant> {
    if code == OUTPUT_CONFIG then Flag(remoteConfig)
    else if code == PORT_RANGE_START then AsUnsigned(BeginOf(c.remotePort))
    else if code == PORT_RANGE_END then AsUnsigned(EndOf(c.remotePort))
    else if code == BANDWIDTH_TO_SERVER then AsUnsigned(OutboundBandwidth(c))
    else if code == BANDWIDTH_TO_CLIENT then AsUnsigned(c.rx)
    else if code == ROUND_TRIP_TIME then AsUnsigned(Widen(c.rtt))
    else if code == CONGESTION_CONTROLLER_TYPE then AlgorithmAsUnsigned(c.congestion)
    else if code == INITIAL_CONGESTION_WINDOW then AsUnsigned(c.initialCongestionWindow)
    else if code == QUIC_TIMEOUT then AsUnsigned(Widen(c.timeout))
    else None
  }

  /** The attributes that a configuration adds to the list `a`, push by push. */
  function Configured(a: seq<Tagged>, remoteConfig: bool, c: Conf.ConfigurationOptional): seq<Tagged> {
    var a := a + Opt(OUTPUT_CONFIG, Flag(remoteConfig));
    var a := a + Opt(PORT_RANGE_START, AsUnsigned(BeginOf(c.remotePort)));
    var a := a + Opt(PORT_RANGE_END, AsUnsigned(EndOf(c.remotePort)));
    var a := a + Opt(BANDWIDTH_TO_SERVER, AsUnsigned(OutboundBandwidth(c)));
    var a := a + Opt(BANDWIDTH_TO_CLIENT, AsUnsigned(c.rx));
    var a := a + Opt(ROUND_TRIP_TIME, AsUnsigned(Widen(c.rtt)));
    var a := a + Opt(CONGESTION_CONTROLLER_TYPE, AlgorithmAsUnsigned(c.congestion));
    var a := a + Opt(INITIAL_CONGESTION_WINDOW, AsUnsigned(c.initialCongestionWindow));
    a + Opt(QUIC_TIMEOUT, AsUnsigned(Widen(c.timeout)))
  }

  function ConfiguredAttributes(remoteConfig: bool, c: Conf.ConfigurationOptional): seq<Tagged> {
    Configured([], remoteConfig, c)
  }

  lemma ConfiguredAnswer(remoteConfig: bool, c: Conf.ConfigurationOptional, code: u64)
    ensures FindTag(ConfiguredAttributes(remoteConfig, c), code) == ConfiguredAttribute(remoteConfig, c, code)
  {
    hide FindTag, Opt;
    var a: seq<Tagged> := [];
    FindTagOfNone(code);
    FindTagAfterPush(a, OUTPUT_CONFIG, Flag(remoteConfig), code);
    a := a + Opt(OUTPUT_CONFIG, Flag(remoteConfig));
    FindTagAfterPush(a, PORT_RANGE_START, AsUnsigned(BeginOf(c.remotePort)), code);
    a := a + Opt(PORT_RANGE_START, AsUnsigned(BeginOf(c.remotePort)));
    FindTagAfterPush(a, PORT_RANGE_END, AsUnsigned(EndOf(c.remotePort)), code);
    a := a + Opt(PORT_RANGE_END, AsUnsigned(EndOf(c.remotePort)));
    FindTagAfterPush(a, BANDWIDTH_TO_SERVER, AsUnsigned(OutboundBandwidth(c)), code);
    a := a + Opt(BANDWIDTH_TO_SERVER, AsUnsigned(OutboundBandwidth(c)));
    FindTagAfterPush(a, BANDWIDTH_TO_CLIENT, AsUnsigned(c.rx), code);
    a := a + Opt(BANDWIDTH_TO_CLIENT, AsUnsigned(c.rx));
    FindTagAfterPush(a, ROUND_TRIP_TIME, AsUnsigned(Widen(c.rtt)), code);
    a := a + Opt(ROUND_TRIP_TIME, AsUnsigned(Widen(c.rtt)));
    FindTagAfterPush(a, CONGESTION_CONTROLLER_TYPE, AlgorithmAsUnsigned(c.congestion), code);
    a := a + Opt(CONGESTION_CONTROLLER_TYPE, AlgorithmAsUnsigned(c.congestion));
    FindTagAfterPush(a, INITIAL_CONGESTION_WINDOW, AsUnsigned(c.initialCongestionWindow), code);
    a := a + Opt(INITIAL_CONGESTION_WINDOW, AsUnsigned(c.initialCongestionWindow));
    FindTagAfterPush(a, QUIC_TIMEOUT, AsUnsigned(Widen(c.timeout)), code);
    a := a + Opt(QUIC_TIMEOUT, AsUnsigned(Widen(c.timeout)));
  }

  /** The tags by number, and what goes under each. */
  lemma KnownTags(remoteConfig: bool, c: Conf.ConfigurationOptional)
    ensures
      var a := ConfiguredAttributes(remoteConfig, c);
      && FindTag(a, 2) == (if c.remotePort.Some? then Some(Unsigned(c.remotePort.value.begin)) else None)
      && FindTag(a, 3) == (if c.remotePort.Some? then Some(Unsigned(c.remotePort.value.end)) else None)
      && FindTag(a, 4) == (if remoteConfig then Some(Empty) else None)
      && FindTag(a, 6) == (if c.rx.Some? then Some(Unsigned(c.rx.value)) else None)
      && FindTag(a, 7) == (if c.rtt.Some? then Some(Unsigned(c.rtt.value)) else None)
      && FindTag(a, 9) == AsUnsigned(c.initialCongestionWindow)
      && FindTag(a, 10) == (if c.timeout.Some? then Some(Unsigned(c.timeout.value)) else None)
    ensures
      var a := ConfiguredAttributes(remoteConfig, c);
      FindTag(a, 5) ==
        if c.tx.Some? && c.tx.value != 0 then Some(Unsigned(c.tx.value))
        else if c.rx.Some? then Some(Unsigned(c.rx.value))
        else None
    ensures
      FindTag(ConfiguredAttributes(remoteConfig, c), 8) ==
        match c.congestion
        case None => None
        case Some(Cubic) => Some(Unsigned(0))
        case Some(Bbr) => Some(Unsigned(1))
        case Some(NewReno) => Some(Unsigned(2))
  {
    hide ConfiguredAttributes, FindTag;
    ConfiguredAnswer(remoteConfig, c, 2);
    ConfiguredAnswer(remoteConfig, c, 3);
    ConfiguredAnswer(remoteConfig, c, 4);
    ConfiguredAnswer(remoteConfig, c, 5);
    ConfiguredAnswer(remoteConfig, c, 6);
    ConfiguredAnswer(remoteConfig, c, 7);
    ConfiguredAnswer(remoteConfig, c, 8);
    ConfiguredAnswer(remoteConfig, c, 9);
    ConfiguredAnswer(remoteConfig, c, 10);
  }

  // ------------------------------------------------- client message, version 1

  function NewClientV1(cert: Bytes, connectionType: ConnectionType, remoteConfig: bool,
                       c: Conf.ConfigurationOptional): ClientMessageV1 {
    ClientMessageV1(
      cert, connectionType, c.remotePort, remoteConfig,
      if c.tx.None? || c.tx.value == 0 then None else c.tx,
      c.rx, c.rtt, c.congestion, c.initialCongestionWindow, c.timeout, [])
  }

  /** What a version 1 message says under the tag `code` of version 2. */
  function ConvertedAttribute(m: ClientMessageV1, code: u64): Option<Variant> {
    if code == PORT_RANGE_START then AsUnsigned(BeginOf(m.port))
    else if code == PORT_RANGE_END then AsUnsigned(EndOf(m.port))
    else if code == OUTPUT_CONFIG then Flag(m.showConfig)
    else if code == BANDWIDTH_TO_SERVER then AsUnsigned(m.bandwidthToServer)
    else if code == BANDWIDTH_TO_CLIENT then AsUnsigned(m.bandwidthToClient)
    else if code == ROUND_TRIP_TIME then AsUnsigned(Widen(m.rtt))
    else if code == CONGESTION_CONTROLLER_TYPE then AlgorithmAsUnsigned(m.congestion)
    else if code == INITIAL_CONGESTION_WINDOW then AsUnsigned(m.initialCongestionWindow)
    else if code == QUIC_TIMEOUT then AsUnsigned(Widen(m.timeout))
    else if code == DIRECTION_OF_TRAVEL then FindTag(m.attributes, DIRECTION_OF_TRAVEL)
    else None
  }

  const CONVERTED_CODES: seq<u64> := [
    PORT_RANGE_START, PORT_RANGE_END, OUTPUT_CONFIG, BANDWIDTH_TO_SERVER, BANDWIDTH_TO_CLIENT,
    ROUND_TRIP_TIME, CONGESTION_CONTROLLER_TYPE, INITIAL_CONGESTION_WINDOW, QUIC_TIMEOUT, DIRECTION_OF_TRAVEL]

  function X509Credentials(cert: Bytes): Tagged {
    Tagged(CredentialsCode(Conf.X509), Data(cert))
  }

  function ClientToV2(m: ClientMessageV1): ClientMessageV2 {
    ClientMessageV2(
      X509Credentials(m.cert), m.connectionType,
      Attributes((code: u64) => ConvertedAttribute(m, code), CONVERTED_CODES))
  }

  lemma ConvertedAnswer(m: ClientMessageV1, code: u64)
    ensures FindTag(ClientToV2(m).attributes, code) == ConvertedAttribute(m, code)
  {
    AttributesAnswer((n: u64) => ConvertedAttribute(m, n), CONVERTED_CODES, code);
  }

  // --------------------------------------------------- choice of the version

  function NewClientMessage(compat: Compatibility, credentials: Tagged, connectionType: ConnectionType,
                            remoteConfig: bool, c: Conf.ConfigurationOptional): ClientMessage
    requires credentials.data.Data?
  {
    if Supports(compat, CmsgSmsg2) then
      ClientV2(ClientMessageV2(credentials, connectionType, ConfiguredAttributes(remoteConfig, c)))
    else ClientV1(NewClientV1(credentials.data.data, connectionType, remoteConfig, c))
  }

  function SetDirection(m: ClientMessage, d: Direction): ClientMessage {
    var attribute := Tagged(DIRECTION_OF_TRAVEL, Unsigned(DirectionCode(d)));
    match m
    case ClientToFollow => m
    case ClientV1(v1) => ClientV1(v1.(attributes := v1.attributes + [attribute]))
    case ClientV2(v2) => ClientV2(v2.(attributes := v2.attributes + [attribute]))
  }

  /** The message as a server processes it, whichever version arrived. */
  function AsClientV2(m: ClientMessage): ClientMessageV2
    requires !m.ClientToFollow?
  {
    if m.ClientV1? then ClientToV2(m.v1) else m.v2
  }

  /** The message that a client builds for a server of the level `compat`. */
  function OutgoingClientMessage(compat: Compatibility, credentials: Tagged, connectionType: ConnectionType,
                                 remoteConfig: bool, c: Conf.ConfigurationOptional, d: Direction): (m: ClientMessage)
    requires credentials.data.Data?
    ensures !m.ClientToFollow?
  {
    SetDirection(NewClientMessage(compat, credentials, connectionType, remoteConfig, c), d)
  }

  /** Does a version 1 message lose the bandwidth that a version 2 message would announce? */
  predicate LosesBandwidth(c: Conf.ConfigurationOptional) {
    (c.tx.None? || c.tx.value == 0) && c.rx.Some?
  }

  /** What a server reads under any tag of the message that a client built from its configuration. */
  lemma ServerReads(compat: Compatibility, credentials: Tagged, connectionType: ConnectionType,
                    remoteConfig: bool, c: Conf.ConfigurationOptional, d: Direction, code: u64)
    requires credentials.data.Data?
    ensures
      var m := OutgoingClientMessage(compat, credentials, connectionType, remoteConfig, c, d);
      FindTag(AsClientV2(m).attributes, code) ==
      if code == DIRECTION_OF_TRAVEL then Some(Unsigned(DirectionCode(d)))
      else if code == BANDWIDTH_TO_SERVER && m.ClientV1? && LosesBandwidth(c) then None
      else ConfiguredAttribute(remoteConfig, c, code)
  {
    var m := OutgoingClientMessage(compat, credentials, connectionType, remoteConfig, c, d);
    var direction := Unsigned(DirectionCode(d));
    if m.ClientV1? {
      ConvertedAnswer(m.v1, code);
      assert m.v1.attributes == [Tagged(DIRECTION_OF_TRAVEL, direction)];
    } else {
      ConfiguredAnswer(remoteConfig, c, code);
      FindTagAfterPush(ConfiguredAttributes(remoteConfig, c), DIRECTION_OF_TRAVEL, Some(direction), code);
    }
  }

  /**
   A version 1 message, converted by the server, answers every tag as the
   version 2 message would, except that it is silent about the bandwidth
   towards the server when the client sets a receive bandwidth only.
   */
  lemma ConversionFidelity(earlier: Compatibility, later: Compatibility, credentials: Tagged,
                           connectionType: ConnectionType, remoteConfig: bool, c: Conf.ConfigurationOptional,
                           d: Direction, code: u64)
    requires credentials.data.Data? && !Supports(earlier, CmsgSmsg2) && Supports(later, CmsgSmsg2)
    ensures
      var v1 := AsClientV2(OutgoingClientMessage(earlier, credentials, connectionType, remoteConfig, c, d));
      var v2 := AsClientV2(OutgoingClientMessage(later, credentials, connectionType, remoteConfig, c, d));
      && v1.connectionType == v2.connectionType
      && (FindTag(v1.attributes, code) == FindTag(v2.attributes, code) <==>
          !(code == BANDWIDTH_TO_SERVER && LosesBandwidth(c)))
      && (v1.credentials == v2.credentials <==> credentials.tag == CredentialsCode(Conf.X509))
  {
    ServerReads(earlier, credentials, connectionType, remoteConfig, c, d, code);
    ServerReads(later, credentials, connectionType, remoteConfig, c, d, code);
  }

  // ----------------------------------------------------- the pushes, in place

  /** A message under construction: its attribute list grows by pushes. */
  class AttributeList {
    var items: seq<Tagged>

    constructor ()
      ensures items == []
    {
      items := [];
    }

    method Push(tag: u64, data: Option<Variant>)
      modifies this
      ensures items == old(items) + Opt(tag, data)
    {
      if data.Some? {
        items := items + [Tagged(tag, data.value)];
      }
    }

    method ApplyConfigAttributes(remoteConfig: bool, c: Conf.ConfigurationOptional)
      modifies this
      ensures items == Configured(old(items), remoteConfig, c)
    {
      Push(OUTPUT_CONFIG, Flag(remoteConfig));
      Push(PORT_RANGE_START, AsUnsigned(BeginOf(c.remotePort)));
      Push(PORT_RANGE_END, AsUnsigned(EndOf(c.remotePort)));
      Push(BANDWIDTH_TO_SERVER, AsUnsigned(OutboundBandwidth(c)));
      Push(BANDWIDTH_TO_CLIENT, AsUnsigned(c.rx));
      Push(ROUND_TRIP_TIME, AsUnsigned(Widen(c.rtt)));
      Push(CONGESTION_CONTROLLER_TYPE, AlgorithmAsUnsigned(c.congestion));
      Push(INITIAL_CONGESTION_WINDOW, AsUnsigned(c.initialCongestionWindow));
      Push(QUIC_TIMEOUT, AsUnsigned(Widen(c.timeout)));
    }
  }

  lemma AttributesOfPrefix(answer: u64 -> Option<Variant>, codes: seq<u64>, i: nat)
    requires i < |codes|
    ensures Attributes(answer, codes[..i + 1]) == Attributes(answer, codes[..i]) + Opt(codes[i], answer(codes[i]))
  {
    assert codes[..i + 1][..i] == codes[..i];
  }

  // ------------------------------------------------------------ server message

  datatype ServerMessageV1 = ServerMessageV1(
    port: u16, cert: Bytes, name: string, bandwidthToServer: u64, bandwidthToClient: u64, rtt: u16,
    congestion: CongestionController, initialCongestionWindow: u64, timeout: u16, warning: Bytes)

  datatype ServerMessageV2 = ServerMessageV2(
    port: u16, credentials: Tagged, commonName: string, bandwidthToServer: u64, bandwidthToClient: u64, rtt: u16,
    attributes: seq<Tagged>)

  datatype ServerFailure = Malformed | NegotiationFailed | EndpointFailed

  datatype ServerMessage =
    | ServerToFollow
    | ServerV1(v1: ServerMessageV1)
    | Refused(failure: ServerFailure)
    | ServerV2(v2: ServerMessageV2)

  function NonZero(n: u64): Option<Variant> {
    if n == 0 then None else Some(Unsigned(n))
  }

  /** A version 2 server message leaves out whatever equals the default of the protocol. */
  function ServerAttribute(c: Conf.Configuration, code: u64): Option<Variant> {
    if code == SERVER_CONGESTION_CONTROLLER then
      if c.congestion == Conf.Cubic then None else Some(Unsigned(AlgorithmCode(c.congestion)))
    else if code == SERVER_INITIAL_CONGESTION_WINDOW then NonZero(c.initialCongestionWindow)
    else if code == SERVER_QUIC_TIMEOUT then NonZero(c.timeout)
    else None
  }

  const SERVER_CODES: seq<u64> := [
    SERVER_WARNING_MESSAGE, SERVER_CONGESTION_CONTROLLER, SERVER_INITIAL_CONGESTION_WINDOW, SERVER_QUIC_TIMEOUT]

  function ServerConvertedAttribute(m: ServerMessageV1, code: u64): Option<Variant> {
    if code == SERVER_WARNING_MESSAGE then (if m.warning == [] then None else Some(String(m.warning)))
    else if code == SERVER_CONGESTION_CONTROLLER then Some(Unsigned(AlgorithmCode(m.congestion)))
    else if code == SERVER_INITIAL_CONGESTION_WINDOW then NonZero(m.initialCongestionWindow)
    else if code == SERVER_QUIC_TIMEOUT then NonZero(m.timeout)
    else None
  }

  function NewServerMessage(compat: Compatibility, c: Conf.Configuration, port: u16, credentials: Tagged,
                            commonName: string, warning: Bytes): (m: ServerMessage)
    requires credentials.data.Data?
    ensures m.ServerV1? || m.ServerV2?
  {
    if Supports(compat, CmsgSmsg2) then
      ServerV2(ServerMessageV2(
        port, credentials, commonName, Conf.RxOf(c), Conf.TxOf(c), c.rtt,
        Attributes((code: u64) => ServerAttribute(c, code), SERVER_CODES)))
    else
      ServerV1(ServerMessageV1(
        port, credentials.data.data, commonName, Conf.RxOf(c), Conf.TxOf(c), c.rtt,
        c.congestion, c.initialCongestionWindow, c.timeout, warning))
  }

  function ServerToV2(m: ServerMessageV1): ServerMessageV2 {
    ServerMessageV2(
      m.port, X509Credentials(m.cert), m.name, m.bandwidthToServer, m.bandwidthToClient, m.rtt,
      Attributes((code: u64) => ServerConvertedAttribute(m, code), SERVER_CODES))
  }

  function AsServerV2(m: ServerMessage): ServerMessageV2
    requires m.ServerV1? || m.ServerV2?
  {
    if m.ServerV1? then ServerToV2(m.v1) else m.v2
  }

  /**
   What a client reads in the answer of a server, in either version: the port, the
   name, the speeds from the server's side, the round trip, and the credentials,
   which version 1 labels as a certificate. Only version 1 has room for a warning.
   */
  lemma AnswerSays(compat: Compatibility, c: Conf.Configuration, port: u16, credentials: Tagged,
                   commonName: string, warning: Bytes)
    requires credentials.data.Data?
    ensures
      var m := NewServerMessage(compat, c, port, credentials, commonName, warning);
      var said := AsServerV2(m);
      && (m.ServerV2? <==> Supports(compat, CmsgSmsg2))
      && said.port == port && said.commonName == commonName && said.rtt == c.rtt
      && said.bandwidthToServer == c.rx && said.bandwidthToClient == (if c.tx == 0 then c.rx else c.tx)
      && said.credentials == (if m.ServerV2? then credentials else Tagged(1, credentials.data))
      && FindTag(said.attributes, 3) ==
         (if m.ServerV2? || warning == [] then None else Some(String(warning)))
      && FindTag(said.attributes, 1) ==
         (if m.ServerV2? && c.congestion == Conf.Cubic then None else Some(Unsigned(AlgorithmCode(c.congestion))))
      && FindTag(said.attributes, 2) == NonZero(c.initialCongestionWindow)
      && FindTag(said.attributes, 4) == NonZero(c.timeout)
  {
    var m := NewServerMessage(compat, c, port, credentials, commonName, warning);
    var answer := if m.ServerV1? then (code: u64) => ServerConvertedAttribute(m.v1, code)
                  else (code: u64) => ServerAttribute(c, code);
    AttributesAnswer(answer, SERVER_CODES, 1);
    AttributesAnswer(answer, SERVER_CODES, 2);
    AttributesAnswer(answer, SERVER_CODES, 3);
    AttributesAnswer(answer, SERVER_CODES, 4);
  }

  /** What one attribute adds to the configuration of a client; an unknown tag makes the layer unreadable. */
  function ProvideOne(layers: Conf.Layers, attribute: Tagged): Conf.Layers {
    var n := CoerceUnsigned(attribute.data);
    if layers.Fused? then Conf.Fused
    else
      match attribute.tag
      case 1 =>
        Conf.Layers(layers.dict[Conf.Congestion := Conf.Algorithm(AlgorithmFromCode(n).GetOr(Conf.Cubic))])
      case 2 => Conf.Layers(layers.dict[Conf.InitialCongestionWindow := Conf.Num(n)])
      case 4 => Conf.Layers(layers.dict[Conf.Timeout := Conf.Num(n)])
      case 0 | 3 => layers
      case _ => Conf.Fused
  }

  function Provide(layers: Conf.Layers, attributes: seq<Tagged>): Conf.Layers {
    if attributes == [] then layers
    else ProvideOne(Provide(layers, attributes[..|attributes| - 1]), attributes[|attributes| - 1])
  }

  /** Bandwidth to the server is the client's transmit bandwidth, and the other way round. */
  function BaseLayer(m: ServerMessageV2): Conf.Dict {
    map[Conf.Tx := Conf.Num(m.bandwidthToServer), Conf.Rx := Conf.Num(m.bandwidthToClient), Conf.Rtt := Conf.Num(m.rtt)]
  }

  /** The configuration layer that a server message provides to the client. */
  function ServerLayer(m: ServerMessageV2): Conf.Layers {
    Provide(Conf.Layers(BaseLayer(m)), m.attributes)
  }

  method ProvideData(m: ServerMessageV2) returns (layers: Conf.Layers)
    ensures layers == ServerLayer(m)
  {
    layers := Conf.Layers(BaseLayer(m));
    for i := 0 to |m.attributes|
      invariant layers == Provide(Conf.Layers(BaseLayer(m)), m.attributes[..i])
    {
      assert m.attributes[..i + 1][..i] == m.attributes[..i];
      layers := ProvideOne(layers, m.attributes[i]);
    }
    assert m.attributes[..|m.attributes|] == m.attributes;
  }

  lemma {:induction false} KnownTagsProvide(layers: Conf.Layers, attributes: seq<Tagged>)
    requires layers.Layers?
    ensures Provide(layers, attributes).Layers? <==> forall i :: 0 <= i < |attributes| ==> attributes[i].tag <= 4
  {
    if attributes == [] {
    } else {
      KnownTagsProvide(layers, attributes[..|attributes| - 1]);
    }
  }

  /** A tag that the client does not know spoils the whole layer. */
  lemma UnknownTagSpoils(m: ServerMessageV2)
    ensures ServerLayer(m).Layers? <==> forall i :: 0 <= i < |m.attributes| ==> m.attributes[i].tag <= 4
  {
    KnownTagsProvide(Conf.Layers(BaseLayer(m)), m.attributes);
  }

  lemma ProvideAfterPush(layers: Conf.Layers, attributes: seq<Tagged>, tag: u64, data: Option<Variant>)
    ensures Provide(layers, attributes + Opt(tag, data)) == ProvideOpt(Provide(layers, attributes), tag, data)
  {
    var all := attributes + Opt(tag, data);
    if data.None? {
      assert all == attributes;
    } else {
      assert all[..|all| - 1] == attributes;
    }
  }

  /** What the server message built for a configuration sets on the client: nothing that it left out. */
  function AnnouncedLayer(version1: bool, c: Conf.Configuration): Conf.Dict {
    var d := map[Conf.Tx := Conf.Num(Conf.RxOf(c)), Conf.Rx := Conf.Num(Conf.TxOf(c)), Conf.Rtt := Conf.Num(c.rtt)];
    var d := if version1 || c.congestion != Conf.Cubic then d[Conf.Congestion := Conf.Algorithm(c.congestion)] else d;
    var window := Conf.Num(c.initialCongestionWindow);
    var d := if c.initialCongestionWindow != 0 then d[Conf.InitialCongestionWindow := window] else d;
    if c.timeout != 0 then d[Conf.Timeout := Conf.Num(c.timeout)] else d
  }

  lemma {:induction false} ClientLearns(compat: Compatibility, c: Conf.Configuration, port: u16, credentials: Tagged,
                                        commonName: string, warning: Bytes)
    requires credentials.data.Data?
    ensures
      var m := NewServerMessage(compat, c, port, credentials, commonName, warning);
      ServerLayer(AsServerV2(m)) == Conf.Layers(AnnouncedLayer(m.ServerV1?, c))
  {
    hide Attributes, Provide;
    var m := NewServerMessage(compat, c, port, credentials, commonName, warning);
    var answer := if m.ServerV1? then (code: u64) => ServerConvertedAttribute(m.v1, code)
                  else (code: u64) => ServerAttribute(c, code);
    assert AsServerV2(m).attributes == Attributes(answer, SERVER_CODES);
    AnswersProvide(Conf.Layers(BaseLayer(AsServerV2(m))), answer);
  }

  /** The layer that four answers, in the order of the server's tags, build on `base`. */
  lemma AnswersProvide(base: Conf.Layers, answer: u64 -> Option<Variant>)
    ensures Provide(base, Attributes(answer, SERVER_CODES)) ==
            ProvideOpt(ProvideOpt(ProvideOpt(ProvideOpt(base, 3, answer(3)), 1, answer(1)), 2, answer(2)), 4, answer(4))
  {
    assert SERVER_CODES[..0] == [] && SERVER_CODES[..4] == SERVER_CODES;
    assert Provide(base, Attributes(answer, SERVER_CODES[..0])) == base;
    hide Attributes, Provide;
    ProvidePrefix(base, answer, 0);
    ProvidePrefix(base, answer, 1);
    ProvidePrefix(base, answer, 2);
    ProvidePrefix(base, answer, 3);
  }

  function ProvideOpt(layers: Conf.Layers, tag: u64, data: Option<Variant>): Conf.Layers {
    match data case None => layers case Some(v) => ProvideOne(layers, Tagged(tag, v))
  }

  lemma ProvidePrefix(base: Conf.Layers, answer: u64 -> Option<Variant>, i: nat)
    requires i < |SERVER_CODES|
    ensures Provide(base, Attributes(answer, SERVER_CODES[..i + 1])) ==
            ProvideOpt(Provide(base, Attributes(answer, SERVER_CODES[..i])), SERVER_CODES[i], answer(SERVER_CODES[i]))
  {
    AttributesOfPrefix(answer, SERVER_CODES, i);
    ProvideAfterPush(base, Attributes(answer, SERVER_CODES[..i]), SERVER_CODES[i], answer(SERVER_CODES[i]));
  }

  // -------------------------------------------------------------- credentials

  /** Key material: a certificate and a raw public key, as opaque bytes. */
  datatype KeyPair = KeyPair(certificate: Bytes, rawPublicKey: Bytes)

  function TypeTagFor(compat: Compatibility, configured: Option<CredentialsType>): (t: CredentialsType)
    ensures t != Conf.Any
  {
    if configured.Some? && configured.value != Conf.Any then configured.value
    else if Supports(compat, CmsgSmsg2) then Conf.RawPublicKey
    else Conf.X509
  }

  /** None when raw public keys are demanded of a peer that cannot take them. */
  function ToTaggedData(keys: KeyPair, compat: Compatibility, configured: Option<CredentialsType>): (r: Option<Tagged>)
    ensures r.Some? ==> r.value.data.Data?
  {
    match TypeTagFor(compat, configured)
    case X509 => Some(X509Credentials(keys.certificate))
    case _ =>
      if Supports(compat, CmsgSmsg2) then Some(Tagged(CredentialsCode(Conf.RawPublicKey), Data(keys.rawPublicKey)))
        else None
  }

  /** The label of the credentials by number, in whatever form they go; unasked, the newest that the peer can take. */
  lemma KnownCredentials(keys: KeyPair, compat: Compatibility, configured: Option<CredentialsType>)
    ensures
      ToTaggedData(keys, compat, configured) ==
        if configured == Some(Conf.X509) then Some(Tagged(1, Data(keys.certificate)))
        else if Supports(compat, CmsgSmsg2) then Some(Tagged(2, Data(keys.rawPublicKey)))
        else if configured == Some(Conf.RawPublicKey) then None
        else Some(Tagged(1, Data(keys.certificate)))
    ensures CredentialsCode(Conf.Any) == 0
  {
  }

  /**
   Both conversions from version 1 label the credentials as X.509. That label is
   true: a sender that must use version 1 either sends its certificate or fails.
   */
  lemma HardCodedLabelIsTrue(keys: KeyPair, compat: Compatibility, configured: Option<CredentialsType>)
    requires !Supports(compat, CmsgSmsg2)
    ensures ToTaggedData(keys, compat, configured) ==
            if configured == Some(Conf.RawPublicKey) then None else Some(X509Credentials(keys.certificate))
  {
  }
}
