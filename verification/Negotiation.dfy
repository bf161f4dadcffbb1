/** How the server reconciles its own configuration with what the client asked for. */
module Negotiation {
  import opened Wrappers
  import opened Numbers
  import opened Variants
  import opened PortRanges
  import opened Tags
  import Conf = Configurations
  import opened Messages

  type Key = Conf.Key
  type Value = Conf.Value
  type Dict = Conf.Dict

  datatype Response = Server | Client | Combined(value: Value) | Failure

  /** The outcome for one option: leave the server's layer alone, or add to one of the two new layers. */
  datatype Pick = Keep | FromClient(value: Value) | Resolved(value: Value) | Conflict

  datatype Error = Unusable(error: Conf.Error) | Incompatible(key: Key)

  // ------------------------------------------------------------ one parameter

  function MinIgnoringZero(cli: u64, srv: u64): Response {
    if cli == 0 then Server
    else if srv == 0 then Client
    else Combined(Conf.Num(Min(cli, srv)))
  }

  /** What to do when both sides have a preference and the preferences differ. */
  function ResolveConflict(key: Key, cli: Value, srv: Value): (r: Response)
    requires Conf.HasKind(key, cli) && Conf.HasKind(key, srv)
    ensures r.Failure? ==> !(key in {Conf.Rx, Conf.Tx, Conf.Rtt, Conf.InitialCongestionWindow, Conf.Timeout})
  {
    match key
    case Rx | Tx => MinIgnoringZero(cli.n, srv.n)
    case Rtt | Timeout => Client
    case InitialCongestionWindow => Server
    case Port =>
      (match Combine(cli.range, srv.range)
       case Ok(r) => Combined(Conf.Ports(r))
       case Err(_) => Failure)
    case _ => Failure
  }

  function NegotiateV3(client: Option<Value>, server: Option<Value>, key: Key): Pick
    requires client.Some? ==> Conf.HasKind(key, client.value)
    requires server.Some? ==> Conf.HasKind(key, server.value)
  {
    match (client, server)
    case (None, _) => Keep
    case (Some(cc), None) => FromClient(cc)
    case (Some(cc), Some(ss)) =>
      if cc == ss then Keep
      else
        match ResolveConflict(key, cc, ss)
        case Server => Keep
        case Client => FromClient(cc)
        case Combined(v) => Resolved(v)
        case Failure => Conflict
  }

  // ----------------------------------------------------------- all parameters

  function AsNumber(v: Option<Variant>, modulus: nat): Option<Value>
    requires 0 < modulus <= U64_BOUND
  {
    match v case None => None case Some(x) => Some(Conf.Num(CoerceUnsigned(x) % modulus))
  }

  /** One port stands for a range of one; the numbers are truncated to 16 bits. */
  function AsPorts(begin: Option<Variant>, end: Option<Variant>): Option<Value> {
    if begin.None? && end.None? then None
    else
      var b := if begin.Some? then begin.value else end.value;
      var e := if end.Some? then end.value else begin.value;
      Some(Conf.Ports(PortRange(CoerceUnsigned(b) % U16_BOUND, CoerceUnsigned(e) % U16_BOUND)))
  }

  function AsAlgorithm(v: Option<Variant>): Option<Value> {
    if v.None? then None
    else
      match AlgorithmFromCode(CoerceUnsigned(v.value))
      case None => None
      case Some(cc) => Some(Conf.Algorithm(cc))
  }

  /** What the client wants of the option `key` of the server. */
  function ClientPreference(a: seq<Tagged>, key: Key): (v: Option<Value>)
    ensures v.Some? ==> Conf.HasKind(key, v.value)
  {
    match key
    case Rx => AsNumber(FindTag(a, BANDWIDTH_TO_SERVER), U64_BOUND)
    case Tx => AsNumber(FindTag(a, BANDWIDTH_TO_CLIENT), U64_BOUND)
    case Rtt => AsNumber(FindTag(a, ROUND_TRIP_TIME), U16_BOUND)
    case Congestion => AsAlgorithm(FindTag(a, CONGESTION_CONTROLLER_TYPE))
    case InitialCongestionWindow => AsNumber(FindTag(a, INITIAL_CONGESTION_WINDOW), U64_BOUND)
    case Port => AsPorts(FindTag(a, PORT_RANGE_START), FindTag(a, PORT_RANGE_END))
    case Timeout => AsNumber(FindTag(a, QUIC_TIMEOUT), U16_BOUND)
    case _ => None
  }

  /**
   What any client's numbers come to, by their tags: those of 16 bits lose what
   does not fit, an unknown algorithm is no preference, and one port alone is a
   range of one.
   */
  lemma AnyonesPreferences(a: seq<Tagged>, n: u64, m: u64)
    ensures FindTag(a, 5) == Some(Unsigned(n)) ==> ClientPreference(a, Conf.Rx) == Some(Conf.Num(n))
    ensures FindTag(a, 6) == Some(Unsigned(n)) ==> ClientPreference(a, Conf.Tx) == Some(Conf.Num(n))
    ensures FindTag(a, 7) == Some(Unsigned(n)) ==> ClientPreference(a, Conf.Rtt) == Some(Conf.Num(n % 0x1_0000))
    ensures FindTag(a, 9) == Some(Unsigned(n)) ==>
              ClientPreference(a, Conf.InitialCongestionWindow) == Some(Conf.Num(n))
    ensures FindTag(a, 10) == Some(Unsigned(n)) ==> ClientPreference(a, Conf.Timeout) == Some(Conf.Num(n % 0x1_0000))
    ensures FindTag(a, 8) == Some(Unsigned(n)) ==>
              ClientPreference(a, Conf.Congestion) ==
              if n == 0 then Some(Conf.Algorithm(Conf.Cubic))
              else if n == 1 then Some(Conf.Algorithm(Conf.Bbr))
              else if n == 2 then Some(Conf.Algorithm(Conf.NewReno))
              else None
    ensures
      var first, last := FindTag(a, 2), FindTag(a, 3);
      && (first == Some(Unsigned(n)) && last == Some(Unsigned(m)) ==>
            ClientPreference(a, Conf.Port) == Some(Conf.Ports(PortRange(n % 0x1_0000, m % 0x1_0000))))
      && ((first == Some(Unsigned(n)) && last == None) || (first == None && last == Some(Unsigned(n))) ==>
            ClientPreference(a, Conf.Port) == Some(Conf.Ports(PortRange(n % 0x1_0000, n % 0x1_0000))))
  {
    hide FindTag;
  }

  function Decide(server: Dict, a: seq<Tagged>, key: Key): Pick
    requires Conf.WellTyped(server)
  {
    NegotiateV3(ClientPreference(a, key), Conf.Get(server, key), key)
  }

  function ClientValue(p: Pick): Option<Value> {
    if p.FromClient? then Some(p.value) else None
  }

  function ResolvedValue(p: Pick): Option<Value> {
    if p.Resolved? then Some(p.value) else None
  }

  function Added(d: Dict, key: Key, value: Option<Value>): Dict {
    match value case None => d case Some(v) => d[key := v]
  }

  /** The values chosen by `chosen` among the outcomes, added in the order of negotiation. */
  function Chosen(server: Dict, a: seq<Tagged>, chosen: Pick -> Option<Value>): Dict
    requires Conf.WellTyped(server)
  {
    var d: Dict := map[];
    var d := Added(d, Conf.Rx, chosen(Decide(server, a, Conf.Rx)));
    var d := Added(d, Conf.Tx, chosen(Decide(server, a, Conf.Tx)));
    var d := Added(d, Conf.Rtt, chosen(Decide(server, a, Conf.Rtt)));
    var d := Added(d, Conf.Congestion, chosen(Decide(server, a, Conf.Congestion)));
    var d := Added(d, Conf.InitialCongestionWindow, chosen(Decide(server, a, Conf.InitialCongestionWindow)));
    var d := Added(d, Conf.Port, chosen(Decide(server, a, Conf.Port)));
    Added(d, Conf.Timeout, chosen(Decide(server, a, Conf.Timeout)))
  }

  /** Only the congestion algorithm and the ports can conflict, and the algorithm is negotiated first. */
  function FirstConflict(server: Dict, a: seq<Tagged>): Option<Key>
    requires Conf.WellTyped(server)
  {
    if Decide(server, a, Conf.Congestion).Conflict? then Some(Conf.Congestion)
    else if Decide(server, a, Conf.Port).Conflict? then Some(Conf.Port)
    else None
  }

  function NegotiatedLayers(layers: Conf.Layers, a: seq<Tagged>): Conf.Layers
    requires layers.Layers? && Conf.WellTyped(layers.dict)
  {
    var merged := Conf.Merge(layers, Conf.Layers(Chosen(layers.dict, a, ClientValue)));
    Conf.Join(Conf.Merge(merged, Conf.Layers(Chosen(layers.dict, a, ResolvedValue))), Conf.SYSTEM_DEFAULT)
  }

  /** The layers that the server is left with, and the configuration it will use. */
  function CombineConfigurations(layers: Conf.Layers, a: seq<Tagged>)
    : (Conf.Layers, Result<Conf.Configuration, Error>)
  {
    match Conf.GetOptional(layers)
    case Err(e) => (layers, Err(Unusable(e)))
    case Ok(_) =>
      match FirstConflict(layers.dict, a)
      case Some(k) => (layers, Err(Incompatible(k)))
      case None =>
        var negotiated := NegotiatedLayers(layers, a);
        (negotiated, AcceptOrExplain(negotiated))
  }

  function AcceptOrExplain(layers: Conf.Layers): Result<Conf.Configuration, Error> {
    match Conf.GetConfiguration(layers)
    case Err(e) => Err(Unusable(e))
    case Ok(c) =>
      match Conf.Validate(c)
      case Err(e) => Err(Unusable(e))
      case Ok(valid) => Ok(valid)
  }

  // --------------------------------------------------- the computation in place

  /** A layer of configuration under construction. */
  class Source {
    var data: Dict

    constructor ()
      ensures data == map[]
    {
      data := map[];
    }

    method Add(key: Key, value: Value)
      modifies this
      ensures data == old(data)[key := value]
    {
      data := data[key := value];
    }
  }

  /** Negotiates one option; false on a conflict. */
  method Negotiate(client: Option<Value>, server: Option<Value>, key: Key, clientOut: Source, resolvedOut: Source)
    returns (ok: bool)
    requires clientOut != resolvedOut
    requires client.Some? ==> Conf.HasKind(key, client.value)
    requires server.Some? ==> Conf.HasKind(key, server.value)
    modifies clientOut, resolvedOut
    ensures ok <==> !NegotiateV3(client, server, key).Conflict?
    ensures clientOut.data == Added(old(clientOut.data), key, ClientValue(NegotiateV3(client, server, key)))
    ensures resolvedOut.data == Added(old(resolvedOut.data), key, ResolvedValue(NegotiateV3(client, server, key)))
  {
    ok := true;
    if client.Some? {
      if server.None? {
        clientOut.Add(key, client.value);
      } else if client.value != server.value {
        match ResolveConflict(key, client.value, server.value) {
          case Server =>
          case Client => clientOut.Add(key, client.value);
          case Combined(v) => resolvedOut.Add(key, v);
          case Failure => ok := false;
        }
      }
    }
  }

  method NegotiateKey(server: Dict, a: seq<Tagged>, key: Key, clientOut: Source, resolvedOut: Source) returns (ok: bool)
    requires clientOut != resolvedOut && Conf.WellTyped(server)
    modifies clientOut, resolvedOut
    ensures ok <==> !Decide(server, a, key).Conflict?
    ensures clientOut.data == Added(old(clientOut.data), key, ClientValue(Decide(server, a, key)))
    ensures resolvedOut.data == Added(old(resolvedOut.data), key, ResolvedValue(Decide(server, a, key)))
  {
    ok := Negotiate(ClientPreference(a, key), Conf.Get(server, key), key, clientOut, resolvedOut);
  }

  method CombineBandwidthConfigurations(manager: Conf.Manager, client: ClientMessageV2)
    returns (r: Result<Conf.Configuration, Error>)
    modifies manager
    ensures (manager.data, r) == CombineConfigurations(old(manager.data), client.attributes)
  {
    var server := Conf.GetOptional(manager.data);
    if server.Err? {
      return Err(Unusable(server.error));
    }
    var d, ca := manager.data.dict, client.attributes;
    hide Decide, Added, AcceptOrExplain, Conf.GetConfiguration, Conf.WellTyped;
    var clientPicks := new Source();
    var negotiated := new Source();
    var ok := NegotiateKey(d, ca, Conf.Rx, clientPicks, negotiated);
    ok := NegotiateKey(d, ca, Conf.Tx, clientPicks, negotiated);
    ok := NegotiateKey(d, ca, Conf.Rtt, clientPicks, negotiated);
    ok := NegotiateKey(d, ca, Conf.Congestion, clientPicks, negotiated);
    if !ok {
      return Err(Incompatible(Conf.Congestion));
    }
    ok := NegotiateKey(d, ca, Conf.InitialCongestionWindow, clientPicks, negotiated);
    ok := NegotiateKey(d, ca, Conf.Port, clientPicks, negotiated);
    if !ok {
      return Err(Incompatible(Conf.Port));
    }
    ok := NegotiateKey(d, ca, Conf.Timeout, clientPicks, negotiated);
    manager.MergeProvider(Conf.Layers(clientPicks.data));
    manager.MergeProvider(Conf.Layers(negotiated.data));
    manager.ApplySystemDefault();
    r := AcceptOrExplain(manager.data);
  }

  // ------------------------------------------------------ what is agreed upon

  /** The outcome for an option, spelled out: a pick, or else the server's value, or else the default. */
  function FinalValue(server: Dict, a: seq<Tagged>, k: Key): Value
    requires Conf.WellTyped(server)
  {
    match Decide(server, a, k)
    case FromClient(v) => v
    case Resolved(v) => v
    case _ => if k in server then server[k] else Conf.DefaultValue(k)
  }

  lemma ChosenIs(server: Dict, a: seq<Tagged>, chosen: Pick -> Option<Value>, k: Key)
    requires Conf.WellTyped(server) && chosen(Keep) == None
    ensures Conf.Get(Chosen(server, a, chosen), k) == chosen(Decide(server, a, k))
  {
    NotNegotiated(server, a, k);
    hide Decide, Conf.WellTyped, Added, Conf.Get;
    var d1 := Added(map[], Conf.Rx, chosen(Decide(server, a, Conf.Rx)));
    var d2 := Added(d1, Conf.Tx, chosen(Decide(server, a, Conf.Tx)));
    var d3 := Added(d2, Conf.Rtt, chosen(Decide(server, a, Conf.Rtt)));
    var d4 := Added(d3, Conf.Congestion, chosen(Decide(server, a, Conf.Congestion)));
    var d5 := Added(d4, Conf.InitialCongestionWindow, chosen(Decide(server, a, Conf.InitialCongestionWindow)));
    var d6 := Added(d5, Conf.Port, chosen(Decide(server, a, Conf.Port)));
    AddedIs(map[], Conf.Rx, chosen(Decide(server, a, Conf.Rx)), k);
    AddedIs(d1, Conf.Tx, chosen(Decide(server, a, Conf.Tx)), k);
    AddedIs(d2, Conf.Rtt, chosen(Decide(server, a, Conf.Rtt)), k);
    AddedIs(d3, Conf.Congestion, chosen(Decide(server, a, Conf.Congestion)), k);
    AddedIs(d4, Conf.InitialCongestionWindow, chosen(Decide(server, a, Conf.InitialCongestionWindow)), k);
    AddedIs(d5, Conf.Port, chosen(Decide(server, a, Conf.Port)), k);
    AddedIs(d6, Conf.Timeout, chosen(Decide(server, a, Conf.Timeout)), k);
    NothingIn(k);
  }

  lemma AddedIs(d: Dict, key: Key, value: Option<Value>, k: Key)
    ensures Conf.Get(Added(d, key, value), k) == if k == key && value.Some? then value else Conf.Get(d, k)
  {
  }

  lemma NothingIn(k: Key)
    ensures Conf.Get(map[], k) == None
  {
  }

  predicate IsNegotiated(k: Key) {
    k in {Conf.Rx, Conf.Tx, Conf.Rtt, Conf.Congestion, Conf.InitialCongestionWindow, Conf.Port, Conf.Timeout}
  }

  lemma NotNegotiated(server: Dict, a: seq<Tagged>, k: Key)
    requires Conf.WellTyped(server)
    ensures !IsNegotiated(k) ==> Decide(server, a, k) == Keep
  {
    if !IsNegotiated(k) {
      assert ClientPreference(a, k) == None;
    }
  }

  /** Every option of the negotiated configuration has its final value. */
  lemma NegotiatedIs(layers: Conf.Layers, a: seq<Tagged>, k: Key)
    requires layers.Layers? && Conf.WellTyped(layers.dict)
    ensures NegotiatedLayers(layers, a).Layers?
    ensures k in NegotiatedLayers(layers, a).dict
    ensures NegotiatedLayers(layers, a).dict[k] == FinalValue(layers.dict, a, k)
  {
    hide Chosen, NegotiateV3, ClientPreference;
    ChosenIs(layers.dict, a, ClientValue, k);
    ChosenIs(layers.dict, a, ResolvedValue, k);
  }

  lemma GetIsLookup(d: Dict, k: Key)
    ensures Conf.Get(d, k) == if k in d then Some(d[k]) else None
  {
  }

  function MinNonZero(a: nat, b: nat): nat {
    if a == 0 then b else if b == 0 then a else Min(a, b)
  }

  /** Zero, or no word at all, is no preference. */
  function Preferred(v: Option<Value>): nat {
    if v.Some? && v.value.Num? then v.value.n else 0
  }

  /**
   In either direction the bandwidth is the smaller of the two non-zero
   preferences, so it never exceeds what either side allowed; the default
   applies when neither side says anything.
   */
  lemma BandwidthIsSmallerPreference(layers: Conf.Layers, a: seq<Tagged>, k: Key)
    requires layers.Layers? && Conf.WellTyped(layers.dict) && (k == Conf.Rx || k == Conf.Tx)
    ensures
      var cli, srv := ClientPreference(a, k), Conf.Get(layers.dict, k);
      var final := NegotiatedLayers(layers, a).dict[k];
      && (cli.Some? || srv.Some? ==> final == Conf.Num(MinNonZero(Preferred(cli), Preferred(srv))))
      && (cli.None? && srv.None? ==> final == Conf.DefaultValue(k))
      && (Preferred(cli) != 0 ==> final.n <= Preferred(cli))
      && (Preferred(srv) != 0 ==> final.n <= Preferred(srv))
  {
    NegotiatedIs(layers, a, k);
    var cli, srv := ClientPreference(a, k), Conf.Get(layers.dict, k);
    assert (cli.Some? ==> cli.value.Num?) && (srv.Some? ==> srv.value.Num?);
    hide NegotiatedLayers, Conf.WellTyped, ClientPreference, Conf.Get, Conf.DefaultValue;
    assert k !in layers.dict <==> srv.None? by { GetIsLookup(layers.dict, k); }
  }

  /**
   The documented rule for the initial window is that the client's preference
   wins. It does if and only if the server has none, or the same.
   */
  lemma ClientWindowWinsIff(layers: Conf.Layers, a: seq<Tagged>)
    requires layers.Layers? && Conf.WellTyped(layers.dict)
    requires ClientPreference(a, Conf.InitialCongestionWindow).Some?
    ensures
      var cli, srv := ClientPreference(a, Conf.InitialCongestionWindow),
        Conf.Get(layers.dict, Conf.InitialCongestionWindow);
      NegotiatedLayers(layers, a).dict[Conf.InitialCongestionWindow] == cli.value <==> srv.None? || srv == cli
  {
    NegotiatedIs(layers, a, Conf.InitialCongestionWindow);
    hide NegotiatedLayers, ClientPreference, Conf.WellTyped;
  }

  /** With 500 from the client and 1000 on the server, the result is 1000. */
  lemma ServerWindowWins()
    ensures
      var layers := Conf.Layers(map[Conf.InitialCongestionWindow := Conf.Num(1000)]);
      var a := [Tagged(INITIAL_CONGESTION_WINDOW, Unsigned(500))];
      && layers.Layers? && Conf.WellTyped(layers.dict)
      && ClientPreference(a, Conf.InitialCongestionWindow) == Some(Conf.Num(500))
      && NegotiatedLayers(layers, a).dict[Conf.InitialCongestionWindow] == Conf.Num(1000)
  {
    hide NegotiatedLayers;
    var layers := Conf.Layers(map[Conf.InitialCongestionWindow := Conf.Num(1000)]);
    var a := [Tagged(INITIAL_CONGESTION_WINDOW, Unsigned(500))];
    assert ClientPreference(a, Conf.InitialCongestionWindow) == Some(Conf.Num(500));
    assert FinalValue(layers.dict, a, Conf.InitialCongestionWindow) == Conf.Num(1000);
    hide ClientPreference, FinalValue;
    NegotiatedIs(layers, a, Conf.InitialCongestionWindow);
  }

  /** A port range that text cannot denote makes the negotiation fail, whoever it comes from. */
  lemma AcceptedPortsAreValid(layers: Conf.Layers, a: seq<Tagged>)
    requires CombineConfigurations(layers, a).1.Ok?
    ensures layers.Layers? && Conf.WellTyped(layers.dict)
    ensures
      var port := CombineConfigurations(layers, a).1.value.port;
      port.Valid() && FinalValue(layers.dict, a, Conf.Port) == Conf.Ports(port)
  {
    hide NegotiatedLayers, FinalValue, FirstConflict, Conf.TryValidate, Conf.HasKind;
    NegotiatedIs(layers, a, Conf.Port);
    ExtractedPort(NegotiatedLayers(layers, a));
  }

  lemma ExtractedPort(layers: Conf.Layers)
    requires Conf.GetConfiguration(layers).Ok?
    ensures
      var port := Conf.GetConfiguration(layers).value.port;
      port.Valid() && layers.dict[Conf.Port] == Conf.Ports(port)
  {
    assert Conf.Port in layers.dict && Conf.Fits(Conf.Port, layers.dict[Conf.Port]);
  }

  /** Where the sides come to terms, the newer algorithm is used exactly if either of them asks for it. */
  lemma AcceptedAlgorithm(layers: Conf.Layers, a: seq<Tagged>)
    requires CombineConfigurations(layers, a).1.Ok?
    ensures layers.Layers? && Conf.WellTyped(layers.dict)
    ensures
      var asked := Some(Conf.Algorithm(Conf.NewReno));
      CombineConfigurations(layers, a).1.value.congestion == Conf.NewReno <==>
      ClientPreference(a, Conf.Congestion) == asked || Conf.Get(layers.dict, Conf.Congestion) == asked
  {
    hide NegotiatedLayers, ClientPreference, Conf.TryValidate, Conf.HasKind;
    NegotiatedIs(layers, a, Conf.Congestion);
    ExtractedAlgorithm(NegotiatedLayers(layers, a));
    assert !Decide(layers.dict, a, Conf.Congestion).Conflict?;
    ConflictIff(layers.dict, a);
  }

  lemma ConflictIff(server: Dict, a: seq<Tagged>)
    requires Conf.WellTyped(server)
    ensures
      var cli, srv := ClientPreference(a, Conf.Congestion), Conf.Get(server, Conf.Congestion);
      Decide(server, a, Conf.Congestion) ==
        if cli.None? || cli == srv then Keep else if srv.None? then FromClient(cli.value) else Conflict
  {
    hide ClientPreference;
  }

  lemma ExtractedAlgorithm(layers: Conf.Layers)
    requires Conf.GetConfiguration(layers).Ok?
    ensures Conf.Congestion in layers.dict
    ensures layers.dict[Conf.Congestion] == Conf.Algorithm(Conf.GetConfiguration(layers).value.congestion)
  {
    assert Conf.Congestion in layers.dict && Conf.Fits(Conf.Congestion, layers.dict[Conf.Congestion]);
  }

  // --------------------------------------------------------- the rules, option by option

  /** The ports of both ranges, of which 0-0 has all. */
  function CommonPorts(a: PortRange, b: PortRange): PortRange {
    if a == PortRange(0, 0) then b
    else if b == PortRange(0, 0) then a
    else PortRange(if a.begin < b.begin then b.begin else a.begin, if a.end < b.end then a.end else b.end)
  }

  /** What two preferences come to. */
  function Agreed(k: Key, cli: Option<Value>, srv: Option<Value>): (v: Value)
    requires (cli.Some? ==> Conf.HasKind(k, cli.value)) && (srv.Some? ==> Conf.HasKind(k, srv.value))
    ensures Conf.HasKind(k, v)
  {
    if cli.None? && srv.None? then Conf.DefaultValue(k)
    else if cli.None? then srv.value
    else if srv.None? then cli.value
    else
      match k
      case Rx | Tx => Conf.Num(MinNonZero(cli.value.n, srv.value.n))
      case Rtt | Timeout | Congestion => cli.value
      case Port => Conf.Ports(CommonPorts(cli.value.range, srv.value.range))
      case _ => srv.value
  }

  /** Preferences that come to nothing: two algorithms, or ports without any in common. */
  predicate AtOdds(k: Key, cli: Option<Value>, srv: Option<Value>)
    requires (cli.Some? ==> Conf.HasKind(k, cli.value)) && (srv.Some? ==> Conf.HasKind(k, srv.value))
  {
    cli.Some? && srv.Some? && cli != srv &&
    match k
    case Congestion => true
    case Port =>
      var both := CommonPorts(cli.value.range, srv.value.range);
      cli.value.range != PortRange(0, 0) && srv.value.range != PortRange(0, 0) && both.end < both.begin
    case _ => false
  }

  /** Each option is decided by its own rule; only algorithms and ports can be at odds. */
  lemma RulesAre(server: Dict, a: seq<Tagged>, k: Key)
    requires Conf.WellTyped(server)
    ensures
      var cli, srv := ClientPreference(a, k), Conf.Get(server, k);
      && (srv.Some? ==> Conf.HasKind(k, srv.value))
      && (IsNegotiated(k) ==> (Decide(server, a, k).Conflict? <==> AtOdds(k, cli, srv)))
      && (!IsNegotiated(k) ==> cli == None)
      && (!Decide(server, a, k).Conflict? ==> FinalValue(server, a, k) == Agreed(k, cli, srv))
  {
    var cli, srv := ClientPreference(a, k), Conf.Get(server, k);
    assert srv.Some? ==> Conf.Fits(k, srv.value);
    NotNegotiated(server, a, k);
    hide ClientPreference;
  }
}
