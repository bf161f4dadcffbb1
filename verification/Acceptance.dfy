/**
 When a server accepts a client, and what both get, said of the two
 configurations alone.
 */
module Acceptance {
  import opened Wrappers
  import opened Numbers
  import opened PortRanges
  import opened Compat
  import opened Tags
  import Conf = Configurations
  import opened Messages
  import opened Negotiation
  import opened Endpoints
  import opened Handshake

  // -------------------------------------------------------------------- the wishes

  /** What a client wishes for an option of the server, by its own configuration and the level it has chosen. */
  function Wish(p: ClientSide, level: Compatibility, k: Key): (v: Option<Value>)
    ensures v.Some? ==> Conf.HasKind(k, v.value)
  {
    var c := WorkingConfig(p);
    match k
    case Rx =>
      if c.tx.Some? && c.tx.value != 0 then Some(Conf.Num(c.tx.value))
      else if Supports(level, CmsgSmsg2) then Conf.AsNum(c.rx)
      else None
    case Tx => Conf.AsNum(c.rx)
    case Rtt => Conf.AsNum16(c.rtt)
    case Congestion => (match c.congestion case None => None case Some(cc) => Some(Conf.Algorithm(cc)))
    case InitialCongestionWindow => Conf.AsNum(c.initialCongestionWindow)
    case Port => (match c.remotePort case None => None case Some(r) => Some(Conf.Ports(r)))
    case Timeout => Conf.AsNum16(c.timeout)
    case _ => None
  }

  /** The server reads these wishes in the client's message. */
  lemma WishesArrive(p: ClientSide, compat: Compatibility, k: Key)
    requires BuildClientMessage(p, compat).Some?
    ensures ClientPreference(AsClientV2(BuildClientMessage(p, compat).value).attributes, k) == Wish(p, compat, k)
  {
    hide BuildClientMessage, AsClientV2, FindTag, WorkingConfig;
    match k {
      case Rx => RateArrives(p, compat);
      case Tx => ServerReadsConfigured(p, compat, BANDWIDTH_TO_CLIENT);
      case Rtt => ServerReadsConfigured(p, compat, ROUND_TRIP_TIME);
      case Congestion => ServerReadsConfigured(p, compat, CONGESTION_CONTROLLER_TYPE);
      case InitialCongestionWindow => ServerReadsConfigured(p, compat, INITIAL_CONGESTION_WINDOW);
      case Port =>
        ServerReadsConfigured(p, compat, PORT_RANGE_START);
        ServerReadsConfigured(p, compat, PORT_RANGE_END);
      case Timeout => ServerReadsConfigured(p, compat, QUIC_TIMEOUT);
      case _ =>
    }
  }

  lemma RateArrives(p: ClientSide, compat: Compatibility)
    requires BuildClientMessage(p, compat).Some?
    ensures ClientPreference(AsClientV2(BuildClientMessage(p, compat).value).attributes, Conf.Rx) ==
            Wish(p, compat, Conf.Rx)
  {
    hide OutgoingClientMessage, AsClientV2, FindTag, WorkingConfig, ToTaggedData;
    var config := WorkingConfig(p);
    var credentials := ToTaggedData(p.keys, compat, config.tlsAuthType).value;
    FormOfMessage(compat, credentials, p.connectionType, p.remoteConfig, config, p.direction);
    ServerReads(compat, credentials, p.connectionType, p.remoteConfig, config, p.direction, BANDWIDTH_TO_SERVER);
  }

  // ------------------------------------------------------------------- the terms

  /** The value that the two come to for an option of the server. */
  function Term(p: ClientSide, q: ServerSide, k: Key): (v: Value)
    requires Conf.GetOptional(q.layers).Ok?
    ensures Conf.HasKind(k, v)
  {
    assert k in q.layers.dict ==> Conf.Fits(k, q.layers.dict[k]);
    Agreed(k, Wish(p, ClientChoice(p, q), k), Conf.Get(q.layers.dict, k))
  }

  predicate OddsAt(p: ClientSide, q: ServerSide, k: Key)
    requires Conf.GetOptional(q.layers).Ok?
  {
    assert k in q.layers.dict ==> Conf.Fits(k, q.layers.dict[k]);
    AtOdds(k, Wish(p, ClientChoice(p, q), k), Conf.Get(q.layers.dict, k))
  }

  /** The configuration that the server goes on with. */
  function Terms(p: ClientSide, q: ServerSide): Conf.Configuration
    requires Conf.GetOptional(q.layers).Ok?
  {
    Conf.Configuration(
      Term(p, q, Conf.Rx).n, Term(p, q, Conf.Tx).n, Term(p, q, Conf.Rtt).n, Term(p, q, Conf.Congestion).cc,
      Term(p, q, Conf.InitialCongestionWindow).n, Term(p, q, Conf.Port).range, Term(p, q, Conf.RemotePort).range,
      Term(p, q, Conf.Timeout).n, Term(p, q, Conf.TlsAuthType).kind, Term(p, q, Conf.UdpBuffer).n,
      Term(p, q, Conf.InitialMtu).n, Term(p, q, Conf.MinMtu).n, Term(p, q, Conf.MaxMtu).n,
      Term(p, q, Conf.IoBufferSize).n)
  }

  lemma CommonPortsAre(a: PortRange, b: PortRange)
    requires a.Valid() && b.Valid()
    ensures
      var both := CommonPorts(a, b);
      if a != PortRange(0, 0) && b != PortRange(0, 0) && both.end < both.begin then
        forall port: u16 :: !(a.Admits(port) && b.Admits(port))
      else
        both.Valid() && forall port: u16 :: both.Admits(port) <==> a.Admits(port) && b.Admits(port)
  {
    CombineIsIntersection(a, b);
  }

  lemma TermFits(p: ClientSide, q: ServerSide, k: Key)
    requires Conf.GetOptional(q.layers).Ok? && !OddsAt(p, q, Conf.Port)
    ensures Conf.Fits(k, Term(p, q, k))
  {
    assert k in q.layers.dict ==> Conf.Fits(k, q.layers.dict[k]);
    if k == Conf.Port {
      assert WorkingConfig(p).remotePort.Some? ==> WorkingConfig(p).remotePort.value.Valid() by {
        RemotePortIsValid(p);
      }
      var wish, own := Wish(p, ClientChoice(p, q), k), Conf.Get(q.layers.dict, k);
      if wish.Some? && own.Some? {
        CommonPortsAre(wish.value.range, own.value.range);
      }
    }
  }

  lemma RemotePortIsValid(p: ClientSide)
    ensures WorkingConfig(p).remotePort.Some? ==> WorkingConfig(p).remotePort.value.Valid()
  {
    if Conf.GetOptional(p.layers).Ok? && Conf.RemotePort in p.layers.dict {
      assert Conf.Fits(Conf.RemotePort, p.layers.dict[Conf.RemotePort]);
    }
  }

  // -------------------------------------------------------------------- acceptance

  /**
   The negotiation fails over two algorithms, over ports, or over values that
   are out of range; else it gives the terms.
   */
  lemma NegotiationIs(p: ClientSide, q: ServerSide, a: seq<Tagged>)
    requires forall k :: ClientPreference(a, k) == Wish(p, ClientChoice(p, q), k)
    requires Conf.GetOptional(q.layers).Ok?
    ensures
      CombineConfigurations(q.layers, a).1 ==
        if OddsAt(p, q, Conf.Congestion) then Err(Incompatible(Conf.Congestion))
        else if OddsAt(p, q, Conf.Port) then Err(Incompatible(Conf.Port))
        else
          match Conf.TryValidate(Terms(p, q))
          case Some(why) => Err(Unusable(Conf.Invalid(why)))
          case None => Ok(Terms(p, q))
  {
    hide ClientPreference, Wish, NegotiatedLayers, Decide, AtOdds, Agreed, FinalValue, Conf.TryValidate;
    var d := q.layers.dict;
    RulesAre(d, a, Conf.Congestion);
    RulesAre(d, a, Conf.Port);
    if !OddsAt(p, q, Conf.Congestion) && !OddsAt(p, q, Conf.Port) {
      var n := NegotiatedLayers(q.layers, a);
      NegotiatedIs(q.layers, a, Conf.Rx);
      forall k ensures k in n.dict && n.dict[k] == Term(p, q, k) && Conf.Fits(k, n.dict[k]) {
        NegotiatedIs(q.layers, a, k);
        RulesAre(d, a, k);
        NoOtherConflict(d, a, k);
        TermFits(p, q, k);
      }
      hide Term, Conf.Fits;
      TermsAreRead(p, q, n);
    }
  }

  lemma TermsAreRead(p: ClientSide, q: ServerSide, n: Conf.Layers)
    requires Conf.GetOptional(q.layers).Ok? && n.Layers?
    requires forall k :: k in n.dict && n.dict[k] == Term(p, q, k) && Conf.Fits(k, n.dict[k])
    ensures Conf.GetConfiguration(n) == Ok(Terms(p, q))
  {
    hide Term, Conf.Fits;
  }

  lemma NoOtherConflict(d: Dict, a: seq<Tagged>, k: Key)
    requires Conf.WellTyped(d)
    ensures Decide(d, a, k).Conflict? ==> k == Conf.Congestion || k == Conf.Port
  {
    hide ClientPreference, Decide;
    RulesAre(d, a, k);
    NotNegotiated(d, a, k);
  }

  /** Raw public keys need a peer that can take them. */
  predicate HasCredentials(level: Compatibility, wanted: Option<Conf.CredentialsType>) {
    wanted == Some(Conf.RawPublicKey) ==> Supports(level, CmsgSmsg2)
  }

  lemma CredentialsIff(keys: KeyPair, level: Compatibility, wanted: Option<Conf.CredentialsType>)
    ensures ToTaggedData(keys, level, wanted).Some? <==> HasCredentials(level, wanted)
  {
  }

  /** Everything that a server asks of a client, and of itself. */
  predicate Acceptable(p: ClientSide, q: ServerSide) {
    var c := WorkingConfig(p);
    && q.setupOk && q.endpoint.Some? && Conf.GetOptional(q.layers).Ok?
    && !OddsAt(p, q, Conf.Congestion) && !OddsAt(p, q, Conf.Port) && Conf.TryValidate(Terms(p, q)).None?
    && (c.congestion == Some(Conf.NewReno) ==> Supports(ClientChoice(p, q), NewReno))
    && (Terms(p, q).congestion == Conf.NewReno ==> Supports(ServerChoice(p, q), NewReno))
    && HasCredentials(ClientChoice(p, q), c.tlsAuthType)
    && HasCredentials(ServerChoice(p, q), Some(Terms(p, q).tlsAuthType))
    && ClientIsRead(p, q)
  }

  lemma MessageIff(p: ClientSide, q: ServerSide)
    ensures TheClientMessage(p, q).Some? <==>
            && (WorkingConfig(p).congestion == Some(Conf.NewReno) ==> Supports(ClientChoice(p, q), NewReno))
            && HasCredentials(ClientChoice(p, q), WorkingConfig(p).tlsAuthType)
    ensures TheClientMessage(p, q).Some? ==> AsClientV2(TheClientMessage(p, q).value).credentials.data.Data?
  {
    hide WorkingConfig, OutgoingClientMessage;
    CredentialsIff(p.keys, ClientChoice(p, q), WorkingConfig(p).tlsAuthType);
    if TheClientMessage(p, q).Some? {
      var config := WorkingConfig(p);
      var credentials := ToTaggedData(p.keys, ClientChoice(p, q), config.tlsAuthType).value;
      CredentialsAreData(ClientChoice(p, q), credentials, p.connectionType, p.remoteConfig, config, p.direction);
    }
  }

  lemma CredentialsAreData(compat: Compatibility, credentials: Tagged, connectionType: ConnectionType,
                           remoteConfig: bool, config: Conf.ConfigurationOptional, direction: Direction)
    requires credentials.data.Data?
    ensures AsClientV2(OutgoingClientMessage(compat, credentials, connectionType, remoteConfig, config, direction))
              .credentials.data.Data?
  {
    hide Configured, Attributes;
  }

  /** A server accepts exactly what is acceptable, and goes on with the terms. */
  lemma AcceptsIff(p: ClientSide, q: ServerSide)
    ensures ServerAccepts(p, q) <==> Acceptable(p, q)
    ensures ServerAccepts(p, q) ==> TheReply(p, q).config == Some(Terms(p, q))
  {
    MessageIff(p, q);
    hide Wish, Terms, OddsAt, BuildClientMessage, CombineConfigurations, ToTaggedData, Conf.TryValidate,
         Conf.GetOptional, AsClientV2, WorkingConfig, ClientIsRead, HasCredentials, NewServerMessage;
    if TheClientMessage(p, q).Some? {
      var m := TheClientMessage(p, q).value;
      ClientMessageUnderstood(p, q);
      if Conf.GetOptional(q.layers).Ok? {
        forall k ensures ClientPreference(AsClientV2(m).attributes, k) == Wish(p, ClientChoice(p, q), k) {
          WishesArrive(p, ClientChoice(p, q), k);
        }
        NegotiationIs(p, q, AsClientV2(m).attributes);
        CredentialsIff(q.keys, ServerChoice(p, q), Some(Terms(p, q).tlsAuthType));
      } else {
        NothingFromUnreadable(q.layers, AsClientV2(m).attributes);
      }
    }
  }

  /**
   What a server in order answers: that the message is no good, that the
   negotiation fails or that the endpoint does; nothing when it lacks the
   credentials; and else its message.
   */
  lemma AnswersAre(p: ClientSide, q: ServerSide)
    requires TheClientMessage(p, q).Some?
    ensures
      var answer := TheReply(p, q).message;
      if !ClientIsRead(p, q) then answer == Some(Refused(Malformed))
      else if Conf.GetOptional(q.layers).Err? || OddsAt(p, q, Conf.Congestion) || OddsAt(p, q, Conf.Port)
           || Conf.TryValidate(Terms(p, q)).Some? then
        answer == Some(Refused(NegotiationFailed))
      else if q.endpoint.None?
           || (Terms(p, q).congestion == Conf.NewReno && !Supports(ServerChoice(p, q), NewReno)) then
        answer == Some(Refused(EndpointFailed))
      else
        match ToTaggedData(q.keys, ServerChoice(p, q), Some(Terms(p, q).tlsAuthType))
        case None => answer == None
        case Some(credentials) =>
          var e := q.endpoint.value;
          answer == Some(NewServerMessage(ServerChoice(p, q), Terms(p, q), e.port, credentials, q.hostname, e.warning))
  {
    MessageIff(p, q);
    hide Wish, Terms, OddsAt, BuildClientMessage, CombineConfigurations, ToTaggedData, Conf.TryValidate,
         Conf.GetOptional, AsClientV2, WorkingConfig, ClientIsRead, HasCredentials, NewServerMessage;
    var m := TheClientMessage(p, q).value;
    ClientMessageUnderstood(p, q);
    if Conf.GetOptional(q.layers).Ok? {
      forall k ensures ClientPreference(AsClientV2(m).attributes, k) == Wish(p, ClientChoice(p, q), k) {
        WishesArrive(p, ClientChoice(p, q), k);
      }
      NegotiationIs(p, q, AsClientV2(m).attributes);
    } else {
      NothingFromUnreadable(q.layers, AsClientV2(m).attributes);
    }
  }

  lemma NothingFromUnreadable(layers: Conf.Layers, a: seq<Tagged>)
    requires Conf.GetOptional(layers).Err?
    ensures CombineConfigurations(layers, a).1.Err?
  {
  }

  // ------------------------------------------------------------------- completed runs

  /**
   A run that can go no further has succeeded on both sides exactly when the two
   are acceptable to each other, the client is new enough for the answer, and the
   session goes well.
   */
  lemma SucceedsIff(p: ClientSide, q: ServerSide, run: seq<World>)
    requires IsRun(p, q, run) && Stuck(p, q, run[|run| - 1]) && Conf.GetOptional(p.layers).Ok?
    ensures
      var w := run[|run| - 1];
      && (w.client.phase == ClientDone <==> Acceptable(p, q) && ServerIsRead(p, q) && q.sessionOk)
      && (w.server.phase == ServerDone <==> Acceptable(p, q) && q.sessionOk)
  {
    OutcomeIsDetermined(p, q, run);
    BothOrNeither(p, q);
    AcceptsIff(p, q);
    hide Acceptable, ServerAccepts, ClientAccepts, ServerIsRead, IsRun, Stuck, Conf.GetOptional;
  }

  /** Two sides of the same level that set nothing always succeed, when their environment does its part. */
  lemma DefaultsSucceed(p: ClientSide, q: ServerSide, run: seq<World>)
    requires IsRun(p, q, run) && Stuck(p, q, run[|run| - 1])
    requires p.layers == q.layers == Conf.Layers(map[]) && p.level == q.level && p.force == q.force == None
    requires q.setupOk && q.endpoint.Some? && q.sessionOk
    ensures
      var w := run[|run| - 1];
      w.client.phase == ClientDone && w.server.phase == ServerDone
  {
    NothingSet(p, q);
    SucceedsIff(p, q, run);
  }

  lemma NothingIsWished(p: ClientSide, level: Compatibility)
    requires p.layers == Conf.Layers(map[])
    ensures Conf.GetOptional(p.layers).Ok? && WorkingConfig(p) == Conf.NOTHING_SET
    ensures forall k :: Wish(p, level, k) == None
  {
  }

  /** The defaults. */
  lemma TermsByDefault(p: ClientSide, q: ServerSide)
    requires p.layers == q.layers == Conf.Layers(map[])
    ensures Conf.GetOptional(q.layers).Ok?
    ensures Terms(p, q) ==
            Conf.Configuration(12_500_000, 0, 300, Conf.Cubic, 0, PortRange(0, 0), PortRange(0, 0), 5, Conf.Any,
                               4_000_000, 1200, 1200, 1452, 1_048_576)
    ensures !OddsAt(p, q, Conf.Congestion) && !OddsAt(p, q, Conf.Port)
  {
    NothingIsWished(p, ClientChoice(p, q));
    hide Wish, WorkingConfig, ClientChoice;
    assert Conf.GetOptional(q.layers).Ok?;
    forall k ensures Term(p, q, k) == Conf.DefaultValue(k) {
    }
    hide Term;
  }

  lemma NothingSet(p: ClientSide, q: ServerSide)
    requires p.layers == q.layers == Conf.Layers(map[]) && p.level == q.level && p.force == q.force == None
    ensures Conf.GetOptional(p.layers).Ok?
    ensures ServerIsRead(p, q) && (q.setupOk && q.endpoint.Some? ==> Acceptable(p, q))
  {
    NothingIsWished(p, ClientChoice(p, q));
    TermsByDefault(p, q);
    Conf.ValidIff(Terms(p, q));
    OwnLevelIsChosen(p, q);
    hide Wish, Terms, OddsAt, WorkingConfig, Conf.TryValidate, Conf.GetOptional, ClientChoice, ServerChoice;
  }

  lemma OwnLevelIsChosen(p: ClientSide, q: ServerSide)
    requires p.level == q.level && p.force == q.force == None
    ensures ClientChoice(p, q) == ServerChoice(p, q) == Level(p.level)
  {
  }
}
