/**
 Layered configuration. A layer is a map from option to value; the manager
 holds the overlay of all layers merged so far, or the error of a layer that
 could not be read.
 */
module Configurations {
  import opened Wrappers
  import opened Numbers
  import opened PortRanges

  datatype CongestionController = Cubic | Bbr | NewReno

  datatype CredentialsType = Any | X509 | RawPublicKey

  /** The options that take part in negotiation, in validation or in the choice of credentials. */
  datatype Key =
    | Rx | Tx | Rtt | Congestion | InitialCongestionWindow | Port | RemotePort | Timeout
    | TlsAuthType | UdpBuffer | InitialMtu | MinMtu | MaxMtu | IoBufferSize

  datatype Value =
    | Num(n: u64)
    | Algorithm(cc: CongestionController)
    | Ports(range: PortRange)
    | Credentials(kind: CredentialsType)

  type Dict = map<Key, Value>

  /** `Fused` remembers that some layer was unreadable; merging more layers does not repair it. */
  datatype Layers = Fused | Layers(dict: Dict)

  datatype Error = Unreadable | IllTyped | Missing | Invalid(why: Check)

  datatype Check =
    | RxTooSmall | RttZero | RxProductOverflows | TxTooSmall | TxProductOverflows
    | UdpBufferTooSmall | MinMtuTooSmall | MaxMtuTooSmall | InitialMtuTooSmall

  datatype Configuration = Configuration(
    rx: u64, tx: u64, rtt: u16, congestion: CongestionController, initialCongestionWindow: u64,
    port: PortRange, remotePort: PortRange, timeout: u16, tlsAuthType: CredentialsType,
    udpBuffer: u64, initialMtu: u16, minMtu: u16, maxMtu: u16, ioBufferSize: u64)

  /** Only the options that some layer sets. */
  datatype ConfigurationOptional = ConfigurationOptional(
    rx: Option<u64>, tx: Option<u64>, rtt: Option<u16>, congestion: Option<CongestionController>,
    initialCongestionWindow: Option<u64>, port: Option<PortRange>, remotePort: Option<PortRange>,
    timeout: Option<u16>, tlsAuthType: Option<CredentialsType>)

  const NOTHING_SET := ConfigurationOptional(None, None, None, None, None, None, None, None, None)

  function DefaultValue(k: Key): (v: Value)
    ensures Fits(k, v)
  {
    match k
    case Rx => Num(12_500_000)
    case Tx => Num(0)
    case Rtt => Num(300)
    case Congestion => Algorithm(Cubic)
    case InitialCongestionWindow => Num(0)
    case Port | RemotePort => Ports(PortRange(0, 0))
    case Timeout => Num(5)
    case TlsAuthType => Credentials(Any)
    case UdpBuffer => Num(4_000_000)
    case InitialMtu | MinMtu => Num(1200)
    case MaxMtu => Num(1452)
    case IoBufferSize => Num(1_048_576)
  }

  const SYSTEM_DEFAULT: Dict := map k: Key | true :: DefaultValue(k)

  // ------------------------------------------------------------------ layers

  function Get(d: Dict, k: Key): Option<Value> {
    if k in d then Some(d[k]) else None
  }

  /** A newly merged layer takes precedence over what is there. */
  function Merge(layers: Layers, provider: Layers): Layers {
    if layers.Fused? || provider.Fused? then Fused else Layers(layers.dict + provider.dict)
  }

  /** A joined layer only fills gaps. */
  function Join(layers: Layers, provider: Dict): Layers {
    if layers.Fused? then Fused else Layers(provider + layers.dict)
  }

  predicate IsU16Key(k: Key) {
    k in {Rtt, Timeout, InitialMtu, MinMtu, MaxMtu}
  }

  /** Is the value of the kind that the option demands? */
  predicate HasKind(k: Key, v: Value) {
    match k
    case Congestion => v.Algorithm?
    case Port | RemotePort => v.Ports?
    case TlsAuthType => v.Credentials?
    case _ => v.Num? && (IsU16Key(k) ==> v.n < U16_BOUND)
  }

  /** Can the option be read from the value? Ports are held as text, which is only read back for a valid range. */
  predicate Fits(k: Key, v: Value) {
    HasKind(k, v) && (v.Ports? ==> v.range.Valid())
  }

  predicate WellTyped(d: Dict) {
    forall k :: k in d ==> Fits(k, d[k])
  }

  // -------------------------------------------------------------- extraction

  predicate Complete(d: Dict) {
    forall k: Key :: k in d
  }

  function GetOptional(layers: Layers): (r: Result<ConfigurationOptional, Error>)
    ensures r.Ok? <==> layers.Layers? && WellTyped(layers.dict)
  {
    if layers.Fused? then Err(Unreadable)
    else
      var d := layers.dict;
      if !WellTyped(d) then Err(IllTyped)
      else
        Ok(ConfigurationOptional(
          if Rx in d then Some(d[Rx].n) else None,
          if Tx in d then Some(d[Tx].n) else None,
          if Rtt in d then Some(d[Rtt].n) else None,
          if Congestion in d then Some(d[Congestion].cc) else None,
          if InitialCongestionWindow in d then Some(d[InitialCongestionWindow].n) else None,
          if Port in d then Some(d[Port].range) else None,
          if RemotePort in d then Some(d[RemotePort].range) else None,
          if Timeout in d then Some(d[Timeout].n) else None,
          if TlsAuthType in d then Some(d[TlsAuthType].kind) else None))
  }

  function GetConfiguration(layers: Layers): (r: Result<Configuration, Error>)
    ensures r.Ok? <==> layers.Layers? && WellTyped(layers.dict) && Complete(layers.dict)
  {
    if layers.Fused? then Err(Unreadable)
    else
      var d := layers.dict;
      if !WellTyped(d) then Err(IllTyped)
      else if !Complete(d) then Err(Missing)
      else
        Ok(Configuration(
          d[Rx].n, d[Tx].n, d[Rtt].n, d[Congestion].cc, d[InitialCongestionWindow].n,
          d[Port].range, d[RemotePort].range, d[Timeout].n, d[TlsAuthType].kind,
          d[UdpBuffer].n, d[InitialMtu].n, d[MinMtu].n, d[MaxMtu].n, d[IoBufferSize].n))
  }

  /** Once the defaults are joined, extraction fails only over an unreadable layer or a value of the wrong type. */
  lemma DefaultsComplete(layers: Layers)
    ensures GetConfiguration(Join(layers, SYSTEM_DEFAULT)).Ok? <==> GetOptional(layers).Ok?
  {
    if layers.Layers? {
      var d := Join(layers, SYSTEM_DEFAULT).dict;
      assert forall k :: k in layers.dict ==> d[k] == layers.dict[k];
    }
  }

  /** What an optional configuration holds for an option that it has room for. */
  ghost function OptionOf(c: ConfigurationOptional, k: Key): Option<Value> {
    match k
    case Rx => AsNum(c.rx)
    case Tx => AsNum(c.tx)
    case Rtt => AsNum16(c.rtt)
    case Congestion => (match c.congestion case None => None case Some(cc) => Some(Algorithm(cc)))
    case InitialCongestionWindow => AsNum(c.initialCongestionWindow)
    case Port => (match c.port case None => None case Some(r) => Some(Ports(r)))
    case RemotePort => (match c.remotePort case None => None case Some(r) => Some(Ports(r)))
    case Timeout => AsNum16(c.timeout)
    case TlsAuthType => (match c.tlsAuthType case None => None case Some(t) => Some(Credentials(t)))
    case _ => None
  }

  function AsNum(n: Option<u64>): Option<Value> {
    match n case None => None case Some(v) => Some(Num(v))
  }

  function AsNum16(n: Option<u16>): Option<Value> {
    match n case None => None case Some(v) => Some(Num(v))
  }

  ghost function ValueOf(c: Configuration, k: Key): Value {
    match k
    case Rx => Num(c.rx)
    case Tx => Num(c.tx)
    case Rtt => Num(c.rtt)
    case Congestion => Algorithm(c.congestion)
    case InitialCongestionWindow => Num(c.initialCongestionWindow)
    case Port => Ports(c.port)
    case RemotePort => Ports(c.remotePort)
    case Timeout => Num(c.timeout)
    case TlsAuthType => Credentials(c.tlsAuthType)
    case UdpBuffer => Num(c.udpBuffer)
    case InitialMtu => Num(c.initialMtu)
    case MinMtu => Num(c.minMtu)
    case MaxMtu => Num(c.maxMtu)
    case IoBufferSize => Num(c.ioBufferSize)
  }

  /** What is wrong: the layers before the types, and these before what is missing. */
  lemma ExtractionFails(layers: Layers)
    ensures
      var r := GetOptional(layers);
      && (r == Err(Unreadable) <==> layers.Fused?)
      && (r == Err(IllTyped) <==> layers.Layers? && exists k :: k in layers.dict && !Fits(k, layers.dict[k]))
    ensures
      var r := GetConfiguration(layers);
      && (r == Err(Unreadable) <==> layers.Fused?)
      && (r == Err(IllTyped) <==> GetOptional(layers) == Err(IllTyped))
      && (r == Err(Missing) <==> GetOptional(layers).Ok? && exists k :: k !in layers.dict)
  {
  }

  /** Every option that is set is extracted as it is, and nothing else. */
  lemma ExtractedAre(d: Dict, k: Key)
    requires WellTyped(d)
    ensures k !in {UdpBuffer, InitialMtu, MinMtu, MaxMtu, IoBufferSize} ==>
              OptionOf(GetOptional(Layers(d)).value, k) == Get(d, k)
    ensures Complete(d) ==> ValueOf(GetConfiguration(Layers(d)).value, k) == d[k]
  {
    assert k in d ==> Fits(k, d[k]);
  }

  // -------------------------------------------------- derived transport values

  const MINIMUM_BANDWIDTH: u64 := 150
  const MINIMUM_UDP_BUFFER: u64 := 1024
  const MINIMUM_MTU: u16 := 1200

  function RxOf(c: Configuration): u64 {
    c.rx
  }

  /** An unset transmit bandwidth means "as receive". */
  function TxOf(c: Configuration): u64 {
    if c.tx == 0 then c.rx else c.tx
  }

  /** The first check that fails, in the order in which they are made. */
  function TryValidate(c: Configuration): Option<Check> {
    var rx, tx, rtt := RxOf(c), TxOf(c), c.rtt;
    if rx < MINIMUM_BANDWIDTH then Some(RxTooSmall)
    else if rtt == 0 then Some(RttZero)
    else if rx * rtt >= U64_BOUND then Some(RxProductOverflows)
    else if tx != 0 && tx < MINIMUM_BANDWIDTH then Some(TxTooSmall)
    else if tx != 0 && tx * rtt >= U64_BOUND then Some(TxProductOverflows)
    else if c.udpBuffer < MINIMUM_UDP_BUFFER then Some(UdpBufferTooSmall)
    else if c.minMtu < MINIMUM_MTU then Some(MinMtuTooSmall)
    else if c.maxMtu < MINIMUM_MTU then Some(MaxMtuTooSmall)
    else if c.initialMtu < MINIMUM_MTU then Some(InitialMtuTooSmall)
    else None
  }

  /** Bandwidths of 150 at least, in products that fit, a round trip, a kilobyte of buffer, and packets of 1200. */
  lemma ValidIff(c: Configuration)
    ensures TryValidate(c).None? <==>
            && 150 <= c.rx && 0 < c.rtt && c.rx * c.rtt < 0x1_0000_0000_0000_0000
            && (c.tx == 0 || (150 <= c.tx && c.tx * c.rtt < 0x1_0000_0000_0000_0000))
            && 1024 <= c.udpBuffer && 1200 <= c.minMtu && 1200 <= c.maxMtu && 1200 <= c.initialMtu
  {
  }

  function Validate(c: Configuration): Result<Configuration, Error> {
    match TryValidate(c)
    case None => Ok(c)
    case Some(why) => Err(Invalid(why))
  }

  /** The receive window goes to the transport as an integer of at most 62 bits. */
  const VARINT_BOUND: int := 0x4000_0000_0000_0000

  /** Computed without overflow whenever validation passes; see WindowsFit. */
  function RecvWindow(c: Configuration): nat {
    RxOf(c) * c.rtt / 1000
  }

  function SendWindow(c: Configuration): nat {
    8 * (TxOf(c) * c.rtt / 1000)
  }

  /**
   A configuration that passes validation never overflows 64 bits while the
   windows are computed, and the send window, eight times the bandwidth-delay
   product, still stays at or below bandwidth times milliseconds. The receive
   window always converts to a transport integer.
   */
  lemma WindowsFit(c: Configuration)
    requires TryValidate(c).None?
    ensures RxOf(c) * c.rtt < U64_BOUND && TxOf(c) * c.rtt < U64_BOUND
    ensures RecvWindow(c) < VARINT_BOUND == 0x4000_0000_0000_0000
    ensures SendWindow(c) <= TxOf(c) * c.rtt < U64_BOUND
    ensures TxOf(c) >= MINIMUM_BANDWIDTH && RxOf(c) >= MINIMUM_BANDWIDTH
  {
    ProductsFit(c);
    hide TryValidate, RxOf, TxOf;
    ThousandthFits(RxOf(c) * c.rtt);
    ThousandthFits(TxOf(c) * c.rtt);
  }

  /**
   Windows in terms of what is in flight: the receive window is the whole number
   of bytes that arrive in a round trip of so many milliseconds, and the send
   window eight times that number for the bytes that leave.
   */
  lemma WindowsAre(c: Configuration)
    ensures 1000 * RecvWindow(c) <= c.rx * c.rtt < 1000 * (RecvWindow(c) + 1)
    ensures
      var tx := if c.tx == 0 then c.rx else c.tx;
      exists w :: SendWindow(c) == 8 * w && 1000 * w <= tx * c.rtt < 1000 * (w + 1)
  {
    var tx := if c.tx == 0 then c.rx else c.tx;
    var w := tx * c.rtt / 1000;
    hide SYSTEM_DEFAULT;
    assert SendWindow(c) == 8 * w && 1000 * w <= tx * c.rtt < 1000 * (w + 1);
  }

  lemma ProductsFit(c: Configuration)
    requires TryValidate(c).None?
    ensures 0 <= RxOf(c) * c.rtt < U64_BOUND && 0 <= TxOf(c) * c.rtt < U64_BOUND
    ensures TxOf(c) >= MINIMUM_BANDWIDTH && RxOf(c) >= MINIMUM_BANDWIDTH
  {
    hide DefaultValue;
  }

  lemma ThousandthFits(product: int)
    requires 0 <= product < U64_BOUND
    ensures 0 <= product / 1000 < VARINT_BOUND && 8 * (product / 1000) <= product
  {
  }

  /**
   The receive window of a valid configuration is empty exactly when less than
   1000 byte-milliseconds are in flight.
   */
  lemma ValidConfigurationCanHaveNoWindow(c: Configuration)
    requires TryValidate(c).None?
    ensures RecvWindow(c) == 0 <==> RxOf(c) * c.rtt < 1000
    ensures SendWindow(c) == 0 <==> TxOf(c) * c.rtt < 1000
  {
  }

  /** What a user's layer comes to over the defaults. */
  function Configured(own: Dict): Result<Configuration, Error> {
    GetConfiguration(Join(Layers(own), SYSTEM_DEFAULT))
  }

  function SetOr(own: Dict, k: Key): Value {
    if k in own then own[k] else DefaultValue(k)
  }

  lemma ConfiguredIs(own: Dict)
    requires WellTyped(own)
    ensures
      var c := Configured(own);
      && c.Ok?
      && c.value.rx == SetOr(own, Rx).n && c.value.tx == SetOr(own, Tx).n && c.value.rtt == SetOr(own, Rtt).n
      && c.value.udpBuffer == SetOr(own, UdpBuffer).n && c.value.initialMtu == SetOr(own, InitialMtu).n
      && c.value.minMtu == SetOr(own, MinMtu).n && c.value.maxMtu == SetOr(own, MaxMtu).n
      && c.value.ioBufferSize == SetOr(own, IoBufferSize).n
  {
    DefaultsComplete(Layers(own));
    assert GetOptional(Layers(own)).Ok?;
    assert forall k :: (SYSTEM_DEFAULT + own)[k] == SetOr(own, k);
  }

  /** A user who sets the copy buffer to no bytes gets a configuration that passes validation. */
  lemma NoBufferIsValid()
    ensures
      var c := Configured(map[IoBufferSize := Num(0)]);
      c.Ok? && c.value.ioBufferSize == 0 && TryValidate(c.value).None?
  {
    hide Configured, Join, GetConfiguration;
    ConfiguredIs(map[IoBufferSize := Num(0)]);
  }

  /** So does one who configures a slow and short connection, whose windows are then empty. */
  lemma NoWindowIsValid()
    ensures
      var c := Configured(map[Rx := Num(150), Rtt := Num(6)]);
      c.Ok? && TryValidate(c.value).None? && RecvWindow(c.value) == 0 && SendWindow(c.value) == 0
  {
    hide Configured, Join, GetConfiguration;
    ConfiguredIs(map[Rx := Num(150), Rtt := Num(6)]);
    var slow := Configured(map[Rx := Num(150), Rtt := Num(6)]).value;
    assert RxOf(slow) == TxOf(slow) == 150 && slow.rtt == 6;
    hide SetOr;
    assert RxOf(slow) * slow.rtt == 900 && TxOf(slow) * slow.rtt == 900;
  }

  // ----------------------------------------------------------------- manager

  /** Processes and merges the configuration sources of one endpoint. */
  class Manager {
    var data: Layers

    constructor (data: Layers)
      ensures this.data == data
    {
      this.data := data;
    }

    method MergeProvider(provider: Layers)
      modifies this
      ensures data == Merge(old(data), provider)
    {
      if data.Fused? || provider.Fused? {
        data := Fused;
      } else {
        data := Layers(data.dict + provider.dict);
      }
    }

    method ApplySystemDefault()
      modifies this
      ensures data == Join(old(data), SYSTEM_DEFAULT)
    {
      if data.Layers? {
        data := Layers(SYSTEM_DEFAULT + data.dict);
      }
    }
  }

  /** Merging prefers the new layer and joining the old one, option by option; neither loses an option. */
  lemma OverlayPrecedence(d: Dict, p: Dict, k: Key)
    ensures Get(Merge(Layers(d), Layers(p)).dict, k) == (if k in p then Get(p, k) else Get(d, k))
    ensures Get(Join(Layers(d), p).dict, k) == (if k in d then Get(d, k) else Get(p, k))
  {
  }
}
