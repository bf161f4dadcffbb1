/** What each side of the control channel computes: its message, and its final configuration. */
module Endpoints {
  import opened Wrappers
  import opened Numbers
  import opened Compat
  import opened Tags
  import Conf = Configurations
  import opened Messages
  import opened Negotiation

  /** Everything that determines what a client does. */
  datatype ClientSide = ClientSide(
    level: u16, force: Option<Compatibility>, layers: Conf.Layers, keys: KeyPair,
    connectionType: ConnectionType, remoteConfig: bool, remoteDebug: bool, direction: Direction)

  /** Everything that determines what a server does; the last three fields are its environment. */
  datatype ServerSide = ServerSide(
    level: u16, force: Option<Compatibility>, layers: Conf.Layers, keys: KeyPair, hostname: string,
    setupOk: bool, endpoint: Option<Endpoint>, sessionOk: bool)

  datatype Endpoint = Endpoint(port: u16, warning: Bytes)

  function AnnouncedLevel(level: u16, force: Option<Compatibility>): u16 {
    ToWire(force.GetOr(Level(level)))
  }

  /** The level that the client selects, whatever order the messages arrive in. */
  function ClientChoice(p: ClientSide, q: ServerSide): Compatibility {
    Choose(p.level, AnnouncedLevel(q.level, q.force))
  }

  function ServerChoice(p: ClientSide, q: ServerSide): Compatibility {
    Choose(q.level, AnnouncedLevel(p.level, p.force))
  }

  // ------------------------------------------------------------------ client

  function WorkingConfig(p: ClientSide): Conf.ConfigurationOptional {
    match Conf.GetOptional(p.layers)
    case Ok(c) => c
    case Err(_) => Conf.NOTHING_SET
  }

  /** None when the server is too old for the congestion algorithm or for the credentials that are demanded. */
  function BuildClientMessage(p: ClientSide, compat: Compatibility): (m: Option<ClientMessage>)
    ensures m.Some? ==> !m.value.ClientToFollow?
  {
    var config := WorkingConfig(p);
    if config.congestion.GetOr(Conf.Cubic) == Conf.NewReno && !Supports(compat, NewReno) then None
    else
      match ToTaggedData(p.keys, compat, config.tlsAuthType)
      case None => None
      case Some(credentials) =>
        Some(OutgoingClientMessage(compat, credentials, p.connectionType, p.remoteConfig, config, p.direction))
  }

  function ClientLayers(p: ClientSide, m: ServerMessage): Conf.Layers
    requires m.ServerV1? || m.ServerV2?
  {
    Conf.Join(Conf.Merge(p.layers, ServerLayer(AsServerV2(m))), Conf.SYSTEM_DEFAULT)
  }

  // ------------------------------------------------------------------ server

  /** What the server sends in reply, if anything, and the configuration it goes on with, if it does. */
  datatype Reply = Reply(message: Option<ServerMessage>, config: Option<Conf.Configuration>)

  function Refuse(why: ServerFailure): Reply {
    Reply(Some(Refused(why)), None)
  }

  /** Can the QUIC endpoint be set up? The environment has its say too. */
  predicate EndpointAccepts(q: ServerSide, compat: Compatibility, m: ClientMessageV2, c: Conf.Configuration) {
    m.credentials.data.Data? && (c.congestion == Conf.NewReno ==> Supports(compat, NewReno)) && q.endpoint.Some?
  }

  /** The reply to a message, given what its negotiation came to. */
  function ReplyWith(q: ServerSide, compat: Compatibility, m: ClientMessageV2,
                     negotiated: Result<Conf.Configuration, Error>): (r: Reply)
    ensures r.config.Some? <==> r.message.Some? && (r.message.value.ServerV1? || r.message.value.ServerV2?)
    ensures r.message.Some? ==> !r.message.value.ServerToFollow?
  {
    match negotiated
    case Err(_) => Refuse(NegotiationFailed)
    case Ok(c) =>
      if !EndpointAccepts(q, compat, m, c) then Refuse(EndpointFailed)
      else
        match ToTaggedData(q.keys, compat, Some(c.tlsAuthType))
        case None => Reply(None, None)
        case Some(credentials) =>
          var e := q.endpoint.value;
          Reply(Some(NewServerMessage(compat, c, e.port, credentials, q.hostname, e.warning)), Some(c))
  }

  function ServerReply(q: ServerSide, compat: Compatibility, m: ClientMessage): (r: Reply)
    ensures r.config.Some? <==> r.message.Some? && (r.message.value.ServerV1? || r.message.value.ServerV2?)
    ensures r.message.Some? ==> !r.message.value.ServerToFollow?
  {
    if m.ClientToFollow? then Refuse(Malformed)
    else ReplyWith(q, compat, AsClientV2(m), CombineConfigurations(q.layers, AsClientV2(m).attributes).1)
  }

  /** The server's layers once it has processed a message. */
  function ServerLayers(q: ServerSide, m: ClientMessage): Conf.Layers {
    if m.ClientToFollow? then q.layers else CombineConfigurations(q.layers, AsClientV2(m).attributes).0
  }

  // --------------------------------------------------------------- agreement

  /** The client keeps a non-zero window of its own where the server insists on the algorithm's default. */
  predicate WindowExcepted(p: Conf.Dict, q: Conf.Dict) {
    Conf.Get(q, Conf.InitialCongestionWindow) == Some(Conf.Num(0))
    && Conf.InitialCongestionWindow in p && p[Conf.InitialCongestionWindow] != Conf.Num(0)
  }

  /** The client falls back to its default timeout where the server insists on zero. */
  predicate TimeoutExcepted(p: Conf.Dict, q: Conf.Dict) {
    Conf.Get(q, Conf.Timeout) == Some(Conf.Num(0)) && Conf.Timeout !in p
  }

  /** The two final configurations describe the same connection, seen from its two ends. */
  ghost predicate Agree(cli: Conf.Configuration, srv: Conf.Configuration, windowExcepted: bool, timeoutExcepted: bool) {
    && Conf.TxOf(cli) == Conf.RxOf(srv)
    && Conf.RxOf(cli) == Conf.TxOf(srv)
    && cli.rtt == srv.rtt
    && cli.congestion == srv.congestion
    && (cli.initialCongestionWindow == srv.initialCongestionWindow <==> !windowExcepted)
    && (cli.timeout == srv.timeout <==> !timeoutExcepted)
  }

  lemma ServerReadsConfigured(p: ClientSide, compat: Compatibility, code: u64)
    requires BuildClientMessage(p, compat).Some?
    requires code != BANDWIDTH_TO_SERVER && code != DIRECTION_OF_TRAVEL
    ensures FindTag(AsClientV2(BuildClientMessage(p, compat).value).attributes, code) ==
            ConfiguredAttribute(p.remoteConfig, WorkingConfig(p), code)
  {
    hide OutgoingClientMessage, AsClientV2, FindTag, ConfiguredAttribute, WorkingConfig;
    var config := WorkingConfig(p);
    var credentials := ToTaggedData(p.keys, compat, config.tlsAuthType).value;
    ServerReads(compat, credentials, p.connectionType, p.remoteConfig, config, p.direction, code);
  }

  /**
   What the client sends as the bandwidth towards the server: version 1 says
   nothing if it only sets the other one.
   */
  function AnnouncedTx(p: ClientSide, compat: Compatibility): Option<u64> {
    var c := WorkingConfig(p);
    if !Supports(compat, CmsgSmsg2) && LosesBandwidth(c) then None else OutboundBandwidth(c)
  }

  /**
   The server reads what the client prefers, option by option, its own options
   being named from its own side: the client's ports are the server's, and what
   the server may send is what the client may receive.
   */
  lemma PreferencesArrive(p: ClientSide, compat: Compatibility)
    requires BuildClientMessage(p, compat).Some? && Conf.GetOptional(p.layers).Ok?
    ensures
      var a := AsClientV2(BuildClientMessage(p, compat).value).attributes;
      var d := p.layers.dict;
      && ClientPreference(a, Conf.Rtt) == Conf.Get(d, Conf.Rtt)
      && ClientPreference(a, Conf.Congestion) == Conf.Get(d, Conf.Congestion)
      && ClientPreference(a, Conf.InitialCongestionWindow) == Conf.Get(d, Conf.InitialCongestionWindow)
      && ClientPreference(a, Conf.Timeout) == Conf.Get(d, Conf.Timeout)
      && ClientPreference(a, Conf.Tx) == Conf.Get(d, Conf.Rx)
      && ClientPreference(a, Conf.Port) == Conf.Get(d, Conf.RemotePort)
      && ClientPreference(a, Conf.Rx) == Conf.AsNum(AnnouncedTx(p, compat))
  {
    hide BuildClientMessage, AsClientV2, ClientPreference, AnnouncedTx, Conf.AsNum, Conf.Get;
    BandwidthArrives(p, compat);
    PortsArrive(p, compat);
    TimesArrive(p, compat);
    CongestionArrives(p, compat);
    TransmitArrives(p, compat);
  }

  lemma TimesArrive(p: ClientSide, compat: Compatibility)
    requires BuildClientMessage(p, compat).Some? && Conf.GetOptional(p.layers).Ok?
    ensures
      var a := AsClientV2(BuildClientMessage(p, compat).value).attributes;
      var d := p.layers.dict;
      && ClientPreference(a, Conf.Rtt) == Conf.Get(d, Conf.Rtt)
      && ClientPreference(a, Conf.Timeout) == Conf.Get(d, Conf.Timeout)
  {
    hide BuildClientMessage, AsClientV2, FindTag;
    ServerReadsConfigured(p, compat, ROUND_TRIP_TIME);
    ServerReadsConfigured(p, compat, QUIC_TIMEOUT);
    var d := p.layers.dict;
    assert forall k :: k in d ==> Conf.Fits(k, d[k]);
  }

  lemma CongestionArrives(p: ClientSide, compat: Compatibility)
    requires BuildClientMessage(p, compat).Some? && Conf.GetOptional(p.layers).Ok?
    ensures
      var a := AsClientV2(BuildClientMessage(p, compat).value).attributes;
      var d := p.layers.dict;
      && ClientPreference(a, Conf.Congestion) == Conf.Get(d, Conf.Congestion)
      && ClientPreference(a, Conf.InitialCongestionWindow) == Conf.Get(d, Conf.InitialCongestionWindow)
  {
    hide BuildClientMessage, AsClientV2, FindTag;
    ServerReadsConfigured(p, compat, CONGESTION_CONTROLLER_TYPE);
    ServerReadsConfigured(p, compat, INITIAL_CONGESTION_WINDOW);
    var d := p.layers.dict;
    assert forall k :: k in d ==> Conf.Fits(k, d[k]);
  }

  lemma TransmitArrives(p: ClientSide, compat: Compatibility)
    requires BuildClientMessage(p, compat).Some? && Conf.GetOptional(p.layers).Ok?
    ensures
      var a := AsClientV2(BuildClientMessage(p, compat).value).attributes;
      var d := p.layers.dict;
      && ClientPreference(a, Conf.Tx) == Conf.Get(d, Conf.Rx)
  {
    hide BuildClientMessage, AsClientV2, FindTag;
    ServerReadsConfigured(p, compat, BANDWIDTH_TO_CLIENT);
    var d := p.layers.dict;
    assert forall k :: k in d ==> Conf.Fits(k, d[k]);
  }

  lemma PortsArrive(p: ClientSide, compat: Compatibility)
    requires BuildClientMessage(p, compat).Some? && Conf.GetOptional(p.layers).Ok?
    ensures ClientPreference(AsClientV2(BuildClientMessage(p, compat).value).attributes, Conf.Port) ==
            Conf.Get(p.layers.dict, Conf.RemotePort)
  {
    hide BuildClientMessage, AsClientV2, FindTag;
    ServerReadsConfigured(p, compat, PORT_RANGE_START);
    ServerReadsConfigured(p, compat, PORT_RANGE_END);
    var d := p.layers.dict;
    assert forall k :: k in d ==> Conf.Fits(k, d[k]);
  }

  lemma BandwidthArrives(p: ClientSide, compat: Compatibility)
    requires BuildClientMessage(p, compat).Some? && Conf.GetOptional(p.layers).Ok?
    ensures ClientPreference(AsClientV2(BuildClientMessage(p, compat).value).attributes, Conf.Rx) ==
            Conf.AsNum(AnnouncedTx(p, compat))
  {
    hide OutgoingClientMessage, AsClientV2, FindTag, WorkingConfig, Conf.GetOptional, ToTaggedData;
    var config := WorkingConfig(p);
    var credentials := ToTaggedData(p.keys, compat, config.tlsAuthType).value;
    FormOfMessage(compat, credentials, p.connectionType, p.remoteConfig, config, p.direction);
    ServerReads(compat, credentials, p.connectionType, p.remoteConfig, config, p.direction, BANDWIDTH_TO_SERVER);
  }

  lemma FormOfMessage(compat: Compatibility, credentials: Tagged, connectionType: ConnectionType, remoteConfig: bool,
                      config: Conf.ConfigurationOptional, direction: Direction)
    requires credentials.data.Data?
    ensures
      var m := OutgoingClientMessage(compat, credentials, connectionType, remoteConfig, config, direction);
      m.ClientV1? <==> !Supports(compat, CmsgSmsg2)
  {
  }

  /** The configuration a server goes on with has the final value of every option, and is valid. */
  lemma ServerFinal(layers: Conf.Layers, a: seq<Tagged>)
    requires CombineConfigurations(layers, a).1.Ok?
    ensures layers.Layers? && Conf.WellTyped(layers.dict)
    ensures
      var c := CombineConfigurations(layers, a).1.value;
      && Conf.TryValidate(c).None?
      && Conf.Num(c.rtt) == FinalValue(layers.dict, a, Conf.Rtt)
      && Conf.Algorithm(c.congestion) == FinalValue(layers.dict, a, Conf.Congestion)
      && Conf.Num(c.initialCongestionWindow) == FinalValue(layers.dict, a, Conf.InitialCongestionWindow)
      && Conf.Num(c.timeout) == FinalValue(layers.dict, a, Conf.Timeout)
    ensures !Decide(layers.dict, a, Conf.Congestion).Conflict?
  {
    hide FinalValue, Decide, NegotiatedLayers, Conf.WellTyped, Conf.TryValidate;
    NegotiatedIs(layers, a, Conf.Rtt);
    NegotiatedIs(layers, a, Conf.Congestion);
    NegotiatedIs(layers, a, Conf.InitialCongestionWindow);
    NegotiatedIs(layers, a, Conf.Timeout);
    TypesOf(NegotiatedLayers(layers, a));
  }

  /** An extracted configuration is the dictionary, field by field. */
  lemma TypesOf(layers: Conf.Layers)
    requires Conf.GetConfiguration(layers).Ok?
    ensures
      var c := Conf.GetConfiguration(layers).value;
      && (Conf.Rx in layers.dict && layers.dict[Conf.Rx] == Conf.Num(c.rx))
      && (Conf.Tx in layers.dict && layers.dict[Conf.Tx] == Conf.Num(c.tx))
      && (Conf.Rtt in layers.dict && layers.dict[Conf.Rtt] == Conf.Num(c.rtt))
      && (Conf.Congestion in layers.dict && layers.dict[Conf.Congestion] == Conf.Algorithm(c.congestion))
      && (Conf.InitialCongestionWindow in layers.dict
          && layers.dict[Conf.InitialCongestionWindow] == Conf.Num(c.initialCongestionWindow))
      && (Conf.Timeout in layers.dict && layers.dict[Conf.Timeout] == Conf.Num(c.timeout))
  {
    var d := layers.dict;
    assert forall k: Conf.Key :: k in d && Conf.Fits(k, d[k]);
    assert Conf.Fits(Conf.Rx, d[Conf.Rx]) && Conf.Fits(Conf.Tx, d[Conf.Tx]) && Conf.Fits(Conf.Rtt, d[Conf.Rtt]);
    assert Conf.Fits(Conf.Congestion, d[Conf.Congestion]) && Conf.Fits(Conf.Timeout, d[Conf.Timeout]);
    assert Conf.Fits(Conf.InitialCongestionWindow, d[Conf.InitialCongestionWindow]);
  }

  /** What the client ends up with under an option, given what the server announced. */
  function ClientSees(own: Conf.Dict, announced: Conf.Dict, k: Conf.Key): Conf.Value {
    if k in announced then announced[k] else if k in own then own[k] else Conf.DefaultValue(k)
  }

  lemma ClientFinal(own: Conf.Dict, announced: Conf.Dict, k: Conf.Key)
    ensures
      var layers := Conf.Join(Conf.Merge(Conf.Layers(own), Conf.Layers(announced)), Conf.SYSTEM_DEFAULT);
      layers.Layers? && k in layers.dict && layers.dict[k] == ClientSees(own, announced, k)
  {
  }

  /**
   If the server accepts the client's message and the client can use the
   answer, the two ends agree: on both bandwidths, on the round-trip time and
   on the congestion algorithm always, and on the initial window and on the
   timeout with one exact exception each. The client program refuses to start
   with a configuration that it cannot read.
   */
  lemma EndToEndAgreement(p: ClientSide, q: ServerSide, compatC: Compatibility, compatS: Compatibility)
    requires Conf.GetOptional(p.layers).Ok?
    requires BuildClientMessage(p, compatC).Some?
    requires ServerReply(q, compatS, BuildClientMessage(p, compatC).value).config.Some?
    ensures
      var reply := ServerReply(q, compatS, BuildClientMessage(p, compatC).value);
      var cli := Conf.GetConfiguration(ClientLayers(p, reply.message.value));
      && q.layers.Layers?
      && cli.Ok?
      && Agree(cli.value, reply.config.value,
               WindowExcepted(p.layers.dict, q.layers.dict), TimeoutExcepted(p.layers.dict, q.layers.dict))
  {
    var cm := BuildClientMessage(p, compatC).value;
    AcceptedReply(q, compatS, cm);
    hide BuildClientMessage, ServerReply, CombineConfigurations, ClientLayers, Agree, AsClientV2, FinalValue,
         Decide, ClientPreference, WindowExcepted, TimeoutExcepted, Conf.GetConfiguration, Conf.GetOptional,
         Conf.TryValidate, Conf.WellTyped;
    var a := AsClientV2(cm).attributes;
    var reply := ServerReply(q, compatS, cm);
    ServerFinal(q.layers, a);
    Conf.WindowsFit(reply.config.value);
    PreferencesArrive(p, compatC);
    AnnouncedArrives(p, q, compatS, cm);
    AgreementOf(p.layers, q.layers, a, reply.message.value.ServerV1?, reply.config.value);
  }

  /** An accepting server goes on with what the negotiation gives. */
  lemma AcceptedReply(q: ServerSide, compat: Compatibility, cm: ClientMessage)
    requires ServerReply(q, compat, cm).config.Some?
    ensures !cm.ClientToFollow?
    ensures CombineConfigurations(q.layers, AsClientV2(cm).attributes).1 == Ok(ServerReply(q, compat, cm).config.value)
  {
    hide CombineConfigurations, AsClientV2, NewServerMessage, ToTaggedData;
  }

  /** Does either side's own configuration ask for the newer algorithm? */
  predicate AsksNewReno(p: ClientSide, q: ServerSide) {
    || WorkingConfig(p).congestion == Some(Conf.NewReno)
    || (q.layers.Layers? && Conf.Get(q.layers.dict, Conf.Congestion) == Some(Conf.Algorithm(Conf.NewReno)))
  }

  lemma AlgorithmArrives(p: ClientSide, compat: Compatibility)
    requires BuildClientMessage(p, compat).Some?
    ensures ClientPreference(AsClientV2(BuildClientMessage(p, compat).value).attributes, Conf.Congestion) ==
            match WorkingConfig(p).congestion case None => None case Some(cc) => Some(Conf.Algorithm(cc))
  {
    hide BuildClientMessage, AsClientV2, FindTag, WorkingConfig;
    ServerReadsConfigured(p, compat, CONGESTION_CONTROLLER_TYPE);
  }

  /** A server that accepts goes on with the newer algorithm exactly if one of the two asks for it. */
  lemma AcceptedIsAskedFor(p: ClientSide, q: ServerSide, compatC: Compatibility, compatS: Compatibility)
    requires BuildClientMessage(p, compatC).Some?
    requires ServerReply(q, compatS, BuildClientMessage(p, compatC).value).config.Some?
    ensures ServerReply(q, compatS, BuildClientMessage(p, compatC).value).config.value.congestion == Conf.NewReno <==>
            AsksNewReno(p, q)
  {
    var cm := BuildClientMessage(p, compatC).value;
    AcceptedReply(q, compatS, cm);
    AlgorithmArrives(p, compatC);
    AcceptedAlgorithm(q.layers, AsClientV2(cm).attributes);
    hide BuildClientMessage, ServerReply, CombineConfigurations, AsClientV2, ClientPreference, WorkingConfig;
  }

  /** Zero, or no word, allows everything. */
  predicate Allows(limit: Option<Conf.Value>, n: nat) {
    Preferred(limit) == 0 || n <= Preferred(limit)
  }

  /** Neither end may be made to send, or to receive, faster than either of the two is configured for. */
  lemma BandwidthIsNeverExceeded(p: ClientSide, q: ServerSide, compatC: Compatibility, compatS: Compatibility)
    requires Conf.GetOptional(p.layers).Ok?
    requires BuildClientMessage(p, compatC).Some?
    requires ServerReply(q, compatS, BuildClientMessage(p, compatC).value).config.Some?
    ensures
      var reply := ServerReply(q, compatS, BuildClientMessage(p, compatC).value);
      var cli := Conf.GetConfiguration(ClientLayers(p, reply.message.value));
      && q.layers.Layers? && cli.Ok?
      && Allows(Conf.Get(p.layers.dict, Conf.Rx), Conf.RxOf(cli.value))
      && Allows(Conf.Get(q.layers.dict, Conf.Tx), Conf.RxOf(cli.value))
      && Allows(Conf.Get(p.layers.dict, Conf.Tx), Conf.TxOf(cli.value))
      && Allows(Conf.Get(q.layers.dict, Conf.Rx), Conf.TxOf(cli.value))
  {
    var cm := BuildClientMessage(p, compatC).value;
    EndToEndAgreement(p, q, compatC, compatS);
    AcceptedReply(q, compatS, cm);
    AnnouncedTxIsTx(p, compatC);
    hide BuildClientMessage, ServerReply, ClientLayers, AsClientV2, Conf.GetConfiguration, Conf.WellTyped,
         CombineConfigurations, ClientPreference, WindowExcepted, TimeoutExcepted, AnnouncedTx, Conf.AsNum,
         Conf.GetOptional;
    var a := AsClientV2(cm).attributes;
    PreferencesArrive(p, compatC);
    ServerBandwidth(q.layers, a);
  }

  lemma AnnouncedTxIsTx(p: ClientSide, compat: Compatibility)
    requires Conf.GetOptional(p.layers).Ok?
    ensures
      var own := Conf.Get(p.layers.dict, Conf.Tx);
      Preferred(own) != 0 ==> Preferred(Conf.AsNum(AnnouncedTx(p, compat))) == Preferred(own)
  {
  }

  /** What an accepting server may receive and send, in terms of both preferences. */
  lemma ServerBandwidth(layers: Conf.Layers, a: seq<Tagged>)
    requires CombineConfigurations(layers, a).1.Ok?
    ensures layers.Layers?
    ensures
      var c := CombineConfigurations(layers, a).1.value;
      && Allows(ClientPreference(a, Conf.Rx), Conf.RxOf(c)) && Allows(Conf.Get(layers.dict, Conf.Rx), Conf.RxOf(c))
      && Allows(ClientPreference(a, Conf.Tx), Conf.TxOf(c)) && Allows(Conf.Get(layers.dict, Conf.Tx), Conf.TxOf(c))
  {
    ServerFinal(layers, a);
    BandwidthIsSmallerPreference(layers, a, Conf.Rx);
    BandwidthIsSmallerPreference(layers, a, Conf.Tx);
    TypesOf(NegotiatedLayers(layers, a));
    hide FinalValue, Decide, NegotiatedLayers, Conf.WellTyped, Conf.TryValidate, ClientPreference;
  }

  /** The client's layers, once the reply of an accepting server is merged. */
  lemma AnnouncedArrives(p: ClientSide, q: ServerSide, compatS: Compatibility, cm: ClientMessage)
    requires ServerReply(q, compatS, cm).config.Some?
    ensures
      var reply := ServerReply(q, compatS, cm);
      var announced := AnnouncedLayer(reply.message.value.ServerV1?, reply.config.value);
      ClientLayers(p, reply.message.value) ==
        Conf.Join(Conf.Merge(p.layers, Conf.Layers(announced)), Conf.SYSTEM_DEFAULT)
  {
    hide CombineConfigurations, NewServerMessage, ServerLayer, AnnouncedLayer, AsServerV2;
    var srv := ServerReply(q, compatS, cm).config.value;
    var credentials := ToTaggedData(q.keys, compatS, Some(srv.tlsAuthType)).value;
    var e := q.endpoint.value;
    ClientLearns(compatS, srv, e.port, credentials, q.hostname, e.warning);
  }

  lemma RttAndCongestionAgree(p: Conf.Dict, q: Conf.Dict, a: seq<Tagged>, version1: bool, srv: Conf.Configuration)
    requires Conf.WellTyped(q) && !Decide(q, a, Conf.Congestion).Conflict?
    requires ClientPreference(a, Conf.Congestion) == Conf.Get(p, Conf.Congestion)
    requires Conf.Algorithm(srv.congestion) == FinalValue(q, a, Conf.Congestion)
    ensures ClientSees(p, AnnouncedLayer(version1, srv), Conf.Rtt) == Conf.Num(srv.rtt)
    ensures ClientSees(p, AnnouncedLayer(version1, srv), Conf.Congestion) == Conf.Algorithm(srv.congestion)
  {
    hide ClientPreference;
  }

  lemma WindowAgrees(p: Conf.Dict, q: Conf.Dict, a: seq<Tagged>, version1: bool, srv: Conf.Configuration)
    requires Conf.WellTyped(p) && Conf.WellTyped(q)
    requires ClientPreference(a, Conf.InitialCongestionWindow) == Conf.Get(p, Conf.InitialCongestionWindow)
    requires Conf.Num(srv.initialCongestionWindow) == FinalValue(q, a, Conf.InitialCongestionWindow)
    ensures WindowExcepted(p, q) <==>
            ClientSees(p, AnnouncedLayer(version1, srv), Conf.InitialCongestionWindow) !=
            Conf.Num(srv.initialCongestionWindow)
  {
    hide ClientPreference, Conf.WellTyped;
  }

  lemma TimeoutAgrees(p: Conf.Dict, q: Conf.Dict, a: seq<Tagged>, version1: bool, srv: Conf.Configuration)
    requires Conf.WellTyped(p) && Conf.WellTyped(q)
    requires ClientPreference(a, Conf.Timeout) == Conf.Get(p, Conf.Timeout)
    requires Conf.Num(srv.timeout) == FinalValue(q, a, Conf.Timeout)
    ensures TimeoutExcepted(p, q) <==>
            ClientSees(p, AnnouncedLayer(version1, srv), Conf.Timeout) != Conf.Num(srv.timeout)
  {
    hide ClientPreference, Conf.WellTyped;
  }

  lemma AgreementOf(p: Conf.Layers, q: Conf.Layers, a: seq<Tagged>, version1: bool, srv: Conf.Configuration)
    requires Conf.GetOptional(p).Ok? && q.Layers? && Conf.WellTyped(q.dict)
    requires ClientPreference(a, Conf.Congestion) == Conf.Get(p.dict, Conf.Congestion)
    requires ClientPreference(a, Conf.InitialCongestionWindow) == Conf.Get(p.dict, Conf.InitialCongestionWindow)
    requires ClientPreference(a, Conf.Timeout) == Conf.Get(p.dict, Conf.Timeout)
    requires Conf.RxOf(srv) > 0 && Conf.TxOf(srv) > 0 && !Decide(q.dict, a, Conf.Congestion).Conflict?
    requires Conf.Algorithm(srv.congestion) == FinalValue(q.dict, a, Conf.Congestion)
    requires Conf.Num(srv.initialCongestionWindow) == FinalValue(q.dict, a, Conf.InitialCongestionWindow)
    requires Conf.Num(srv.timeout) == FinalValue(q.dict, a, Conf.Timeout)
    ensures
      var layers := Conf.Join(Conf.Merge(p, Conf.Layers(AnnouncedLayer(version1, srv))), Conf.SYSTEM_DEFAULT);
      var cli := Conf.GetConfiguration(layers);
      && cli.Ok?
      && Agree(cli.value, srv, WindowExcepted(p.dict, q.dict), TimeoutExcepted(p.dict, q.dict))
  {
    var announced := AnnouncedLayer(version1, srv);
    assert announced[Conf.Tx] == Conf.Num(Conf.RxOf(srv)) && announced[Conf.Rx] == Conf.Num(Conf.TxOf(srv));
    assert Conf.Layers(p.dict) == p;
    hide ClientPreference, FinalValue, AnnouncedLayer, WindowExcepted, TimeoutExcepted, Conf.WellTyped;
    hide Conf.GetConfiguration, Conf.Join, Conf.Merge, Decide;
    var layers := Conf.Join(Conf.Merge(p, Conf.Layers(announced)), Conf.SYSTEM_DEFAULT);
    AnnouncedIsWellTyped(version1, srv);
    ClientSeesWellTyped(p.dict, announced);
    TypesOf(layers);
    RttAndCongestionAgree(p.dict, q.dict, a, version1, srv);
    WindowAgrees(p.dict, q.dict, a, version1, srv);
    TimeoutAgrees(p.dict, q.dict, a, version1, srv);
    ClientFinal(p.dict, announced, Conf.Rx);
    ClientFinal(p.dict, announced, Conf.Tx);
    ClientFinal(p.dict, announced, Conf.Rtt);
    ClientFinal(p.dict, announced, Conf.Congestion);
    ClientFinal(p.dict, announced, Conf.InitialCongestionWindow);
    ClientFinal(p.dict, announced, Conf.Timeout);
  }

  lemma ClientSeesWellTyped(own: Conf.Dict, announced: Conf.Dict)
    requires Conf.WellTyped(own) && Conf.WellTyped(announced)
    ensures
      var merged := Conf.Merge(Conf.Layers(own), Conf.Layers(announced));
      Conf.GetConfiguration(Conf.Join(merged, Conf.SYSTEM_DEFAULT)).Ok?
  {
    var layers := Conf.Join(Conf.Merge(Conf.Layers(own), Conf.Layers(announced)), Conf.SYSTEM_DEFAULT);
    forall k: Conf.Key ensures k in layers.dict && Conf.Fits(k, layers.dict[k]) {
      ClientFinal(own, announced, k);
    }
  }

  lemma AnnouncedIsWellTyped(version1: bool, srv: Conf.Configuration)
    ensures Conf.WellTyped(AnnouncedLayer(version1, srv))
  {
  }
}
