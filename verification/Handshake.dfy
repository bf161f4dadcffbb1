/**
 The control channel as a transition system: a client and a server, each with
 its own protocol level, joined by two first-in-first-out channels. A channel
 is the sequence of all messages sent on it and the number of them read.
 An endpoint that stops closes its channel, and the reader then meets its end.
 */
module Handshake {
  import opened Wrappers
  import opened Numbers
  import opened Compat
  import Conf = Configurations
  import opened Messages
  import opened Endpoints
  import Negotiation

  datatype Message =
    | Banner
    | ClientGreeting(clientLevel: u16, debug: bool)
    | ServerGreeting(serverLevel: u16)
    | ToServer(clientMessage: ClientMessage)
    | ToClient(serverMessage: ServerMessage)
    | ClosedownReport

  /** Can an endpoint of the given level make sense of the message? */
  predicate Understands(level: u16, m: Message) {
    match m
    case ToServer(ClientToFollow) => false
    case ToServer(ClientV1(v1)) => v1.congestion == Some(Conf.NewReno) ==> level >= FeatureLevel(NewReno)
    case ToServer(ClientV2(_)) => level >= FeatureLevel(CmsgSmsg2)
    case ToClient(ServerToFollow) => false
    case ToClient(ServerV1(v1)) => v1.congestion == Conf.NewReno ==> level >= FeatureLevel(NewReno)
    case ToClient(ServerV2(_)) => level >= FeatureLevel(CmsgSmsg2)
    case _ => true
  }

  // -------------------------------------------------------------- endpoints

  datatype ClientPhase =
    | AwaitBanner | SendClientGreeting | AwaitServerGreeting | SendClientMessage
    | AwaitServerMessage | AwaitReport | ClientDone | ClientFailed

  datatype Client = Client(phase: ClientPhase, compat: Compatibility, layers: Conf.Layers)

  datatype ServerPhase =
    | SendBanner | SendServerGreeting | AwaitClientGreeting | SetUp
    | AwaitClientMessage | InSession | ServerDone | ServerFailed

  datatype Server = Server(phase: ServerPhase, compat: Compatibility, config: Option<Conf.Configuration>)

  /** What an endpoint finds when it looks at its inbound channel. */
  datatype Input = NothingYet | EndOfStream | Received(message: Message)

  datatype Move<T> = Blocked | Go(next: T, consumes: bool, sends: seq<Message>)

  function ClientMove(p: ClientSide, c: Client, input: Input): Move<Client> {
    match c.phase
    case SendClientGreeting =>
      Go(c.(phase := AwaitServerGreeting), false, [ClientGreeting(AnnouncedLevel(p.level, p.force), p.remoteDebug)])
    case SendClientMessage =>
      (match BuildClientMessage(p, c.compat)
       case None => Go(c.(phase := ClientFailed), false, [])
       case Some(m) => Go(c.(phase := AwaitServerMessage), false, [ToServer(m)]))
    case ClientDone | ClientFailed => Blocked
    case _ =>
      if input.NothingYet? then Blocked
      else Go(ClientReceives(p, c, input), input.Received?, [])
  }

  /** A client that waits takes in the message, or fails if it is not the one it waits for. */
  function ClientReceives(p: ClientSide, c: Client, input: Input): Client {
    match (c.phase, input)
    case (AwaitBanner, Received(Banner)) => c.(phase := SendClientGreeting)
    case (AwaitServerGreeting, Received(ServerGreeting(theirs))) =>
      c.(phase := SendClientMessage, compat := Choose(p.level, theirs))
    case (AwaitServerMessage, Received(ToClient(m))) =>
      if Understands(p.level, input.message) && (m.ServerV1? || m.ServerV2?)
         && Conf.GetConfiguration(ClientLayers(p, m)).Ok?
      then c.(phase := AwaitReport, layers := ClientLayers(p, m))
      else c.(phase := ClientFailed)
    case (AwaitReport, Received(ClosedownReport)) => c.(phase := ClientDone)
    case _ => c.(phase := ClientFailed)
  }

  function ServerMove(q: ServerSide, s: Server, input: Input): Move<Server> {
    match s.phase
    case SendBanner => Go(s.(phase := SendServerGreeting), false, [Banner])
    case SendServerGreeting =>
      Go(s.(phase := AwaitClientGreeting), false, [ServerGreeting(AnnouncedLevel(q.level, q.force))])
    case SetUp => Go(s.(phase := if q.setupOk then AwaitClientMessage else ServerFailed), false, [])
    case InSession =>
      if q.sessionOk then Go(s.(phase := ServerDone), false, [ClosedownReport])
      else Go(s.(phase := ServerFailed), false, [])
    case ServerDone | ServerFailed => Blocked
    case AwaitClientGreeting =>
      (match input
       case NothingYet => Blocked
       case Received(ClientGreeting(theirs, _)) =>
         Go(s.(phase := SetUp, compat := Choose(q.level, theirs)), true, [])
       case _ => Go(s.(phase := ServerFailed), input.Received?, []))
    case AwaitClientMessage =>
      if input.NothingYet? then Blocked
      else
        var reply := ReplyTo(q, s.compat, input);
        Go(s.(phase := if reply.config.Some? then InSession else ServerFailed, config := reply.config),
           input.Received?,
           if reply.message.Some? then [ToClient(reply.message.value)] else [])
  }

  /** Anything that is not an intelligible client message is answered as malformed. */
  function ReplyTo(q: ServerSide, compat: Compatibility, input: Input): (r: Reply)
    ensures r.config.Some? <==> r.message.Some? && (r.message.value.ServerV1? || r.message.value.ServerV2?)
  {
    match input
    case Received(ToServer(m)) =>
      if Understands(q.level, input.message) then ServerReply(q, compat, m) else Refuse(Malformed)
    case _ => Refuse(Malformed)
  }

  // ------------------------------------------------------------------- world

  datatype World = World(
    client: Client, clientSent: seq<Message>, clientRead: nat,
    server: Server, serverSent: seq<Message>, serverRead: nat)

  function Initial(p: ClientSide): World {
    World(Client(AwaitBanner, Unknown, p.layers), [], 0, Server(SendBanner, Unknown, None), [], 0)
  }

  predicate ClientStopped(w: World) {
    w.client.phase == ClientDone || w.client.phase == ClientFailed
  }

  predicate ServerStopped(w: World) {
    w.server.phase == ServerDone || w.server.phase == ServerFailed
  }

  function Inbound(sent: seq<Message>, read: nat, stopped: bool): Input {
    if read < |sent| then Received(sent[read]) else if stopped then EndOfStream else NothingYet
  }

  function ClientStep(p: ClientSide, w: World): Option<World> {
    match ClientMove(p, w.client, Inbound(w.serverSent, w.clientRead, ServerStopped(w)))
    case Blocked => None
    case Go(next, consumes, sends) =>
      Some(w.(client := next, clientSent := w.clientSent + sends,
        clientRead := w.clientRead + if consumes then 1 else 0))
  }

  function ServerStep(q: ServerSide, w: World): Option<World> {
    match ServerMove(q, w.server, Inbound(w.clientSent, w.serverRead, ClientStopped(w)))
    case Blocked => None
    case Go(next, consumes, sends) =>
      Some(w.(server := next, serverSent := w.serverSent + sends,
        serverRead := w.serverRead + if consumes then 1 else 0))
  }

  /** Either endpoint moves; which one is up to the scheduler. */
  ghost predicate Step(p: ClientSide, q: ServerSide, w: World, next: World) {
    ClientStep(p, w) == Some(next) || ServerStep(q, w) == Some(next)
  }

  /** A run: any interleaving of the two endpoints from the initial world. */
  ghost predicate IsRun(p: ClientSide, q: ServerSide, run: seq<World>) {
    run != [] && run[0] == Initial(p) && forall i :: 0 <= i < |run| - 1 ==> Step(p, q, run[i], run[i + 1])
  }

  ghost predicate Stuck(p: ClientSide, q: ServerSide, w: World) {
    ClientStep(p, w).None? && ServerStep(q, w).None?
  }

  // --------------------------------------------------------------- invariant

  function Greeting(p: ClientSide): Message {
    ClientGreeting(AnnouncedLevel(p.level, p.force), p.remoteDebug)
  }

  /** The message that the client sends if it gets that far. */
  function TheClientMessage(p: ClientSide, q: ServerSide): Option<ClientMessage> {
    BuildClientMessage(p, ClientChoice(p, q))
  }

  /** The answer that the server gives if it gets that far. */
  function TheReply(p: ClientSide, q: ServerSide): (r: Reply)
    requires TheClientMessage(p, q).Some?
    ensures r.config.Some? <==> r.message.Some? && (r.message.value.ServerV1? || r.message.value.ServerV2?)
  {
    ReplyTo(q, ServerChoice(p, q), Received(ToServer(TheClientMessage(p, q).value)))
  }

  /** The server reaches its session; decided by the two sides alone. */
  predicate ServerAccepts(p: ClientSide, q: ServerSide) {
    q.setupOk && TheClientMessage(p, q).Some? && TheReply(p, q).config.Some?
  }

  predicate ServerSucceeds(p: ClientSide, q: ServerSide) {
    ServerAccepts(p, q) && q.sessionOk
  }

  /** The client obtains a configuration. */
  predicate ClientAccepts(p: ClientSide, q: ServerSide) {
    ServerAccepts(p, q)
    && var m := TheReply(p, q).message.value;
       Understands(p.level, ToClient(m)) && Conf.GetConfiguration(ClientLayers(p, m)).Ok?
  }

  predicate ClientSucceeds(p: ClientSide, q: ServerSide) {
    ClientAccepts(p, q) && q.sessionOk
  }

  /** Everything that the client has sent, and when. */
  ghost predicate ClientScript(p: ClientSide, q: ServerSide, w: World) {
    var n := |w.clientSent|;
    && n <= 2
    && (n >= 1 ==> w.clientSent[0] == Greeting(p) && w.clientRead >= 1)
    && (n == 2 ==> TheClientMessage(p, q).Some?
                   && w.clientSent[1] == ToServer(TheClientMessage(p, q).value) && w.clientRead >= 2)
    && (match w.client.phase
        case AwaitBanner => n == 0 && w.clientRead == 0
        case SendClientGreeting => n == 0 && w.clientRead == 1
        case AwaitServerGreeting => n == 1 && w.clientRead == 1
        case SendClientMessage => n == 1 && w.clientRead == 2 && w.client.compat == ClientChoice(p, q)
        case AwaitServerMessage => n == 2 && w.clientRead == 2 && w.client.compat == ClientChoice(p, q)
        case AwaitReport => n == 2 && w.clientRead == 3 && w.client.compat == ClientChoice(p, q) && ClientAccepts(p, q)
                            && w.client.layers == ClientLayers(p, TheReply(p, q).message.value)
        case ClientDone => n == 2 && w.clientRead == 4 && w.client.compat == ClientChoice(p, q) && ClientSucceeds(p, q)
                           && w.client.layers == ClientLayers(p, TheReply(p, q).message.value)
        case ClientFailed => n >= 1 && !ClientSucceeds(p, q) && (n == 1 ==> TheClientMessage(p, q).None?))
  }

  /** Everything that the server has sent, and when. */
  ghost predicate ServerScript(p: ClientSide, q: ServerSide, w: World) {
    var n := |w.serverSent|;
    && n <= 4 && w.clientRead <= n && w.serverRead <= |w.clientSent|
    && (n >= 1 ==> w.serverSent[0] == Banner)
    && (n >= 2 ==> w.serverSent[1] == ServerGreeting(AnnouncedLevel(q.level, q.force)))
    && (n >= 3 ==> w.serverSent[2].ToClient? && !w.serverSent[2].serverMessage.ServerToFollow?
                   && (if ServerAccepts(p, q)
                       then w.serverSent[2] == ToClient(TheReply(p, q).message.value)
                       else w.serverSent[2].serverMessage.Refused?))
    && (n >= 4 ==> w.serverSent[3] == ClosedownReport && ServerSucceeds(p, q))
    && (match w.server.phase
        case SendBanner => n == 0 && w.serverRead == 0
        case SendServerGreeting => n == 1 && w.serverRead == 0
        case AwaitClientGreeting => n == 2 && w.serverRead == 0
        case SetUp => n == 2 && w.serverRead == 1 && w.server.compat == ServerChoice(p, q)
        case AwaitClientMessage => n == 2 && w.serverRead == 1 && w.server.compat == ServerChoice(p, q) && q.setupOk
        case InSession => n == 3 && w.serverRead == 2 && w.server.compat == ServerChoice(p, q) && ServerAccepts(p, q)
                          && w.server.config == TheReply(p, q).config
        case ServerDone => n == 4 && w.serverRead == 2 && w.server.compat == ServerChoice(p, q) && ServerSucceeds(p, q)
                           && w.server.config == TheReply(p, q).config
        case ServerFailed => 2 <= n <= 3 && w.server.compat == ServerChoice(p, q) && !ServerSucceeds(p, q)
                             && (ServerAccepts(p, q) ==> n == 3 && w.server.config == TheReply(p, q).config))
  }

  ghost predicate Inv(p: ClientSide, q: ServerSide, w: World) {
    ClientScript(p, q, w) && ServerScript(p, q, w)
  }

  lemma InvInitially(p: ClientSide, q: ServerSide)
    ensures Inv(p, q, Initial(p))
  {
  }

  lemma ClientStepKeepsClientScript(p: ClientSide, q: ServerSide, w: World)
    requires Inv(p, q, w) && ClientStep(p, w).Some?
    ensures ClientScript(p, q, ClientStep(p, w).value)
  {
    hide BuildClientMessage, Conf.GetConfiguration, ClientLayers, ServerReply;
  }

  lemma ClientStepKeepsServerScript(p: ClientSide, q: ServerSide, w: World)
    requires Inv(p, q, w) && ClientStep(p, w).Some?
    ensures ServerScript(p, q, ClientStep(p, w).value)
  {
    hide BuildClientMessage, Conf.GetConfiguration, ClientLayers, ServerReply, ServerAccepts, ClientAccepts, TheReply;
  }

  lemma ClientStepKeepsInv(p: ClientSide, q: ServerSide, w: World)
    requires Inv(p, q, w) && ClientStep(p, w).Some?
    ensures Inv(p, q, ClientStep(p, w).value)
  {
    ClientStepKeepsClientScript(p, q, w);
    ClientStepKeepsServerScript(p, q, w);
    hide ClientScript, ServerScript, ClientStep;
  }

  lemma ServerStepKeepsServerScript(p: ClientSide, q: ServerSide, w: World)
    requires Inv(p, q, w) && ServerStep(q, w).Some?
    ensures ServerScript(p, q, ServerStep(q, w).value)
  {
    hide BuildClientMessage, Conf.GetConfiguration, ClientLayers, ServerReply;
  }

  lemma ServerStepKeepsClientScript(p: ClientSide, q: ServerSide, w: World)
    requires Inv(p, q, w) && ServerStep(q, w).Some?
    ensures ClientScript(p, q, ServerStep(q, w).value)
  {
    hide BuildClientMessage, Conf.GetConfiguration, ClientLayers, ServerReply, ServerAccepts, ClientAccepts, TheReply;
  }

  lemma ServerStepKeepsInv(p: ClientSide, q: ServerSide, w: World)
    requires Inv(p, q, w) && ServerStep(q, w).Some?
    ensures Inv(p, q, ServerStep(q, w).value)
  {
    ServerStepKeepsServerScript(p, q, w);
    ServerStepKeepsClientScript(p, q, w);
    hide ClientScript, ServerScript, ServerStep;
  }

  lemma {:induction false} RunKeepsInv(p: ClientSide, q: ServerSide, run: seq<World>, i: nat)
    requires IsRun(p, q, run) && i < |run|
    ensures Inv(p, q, run[i])
  {
    hide Inv, ClientStep, ServerStep;
    if i == 0 {
      InvInitially(p, q);
    } else {
      RunKeepsInv(p, q, run, i - 1);
      var w := run[i - 1];
      assert Step(p, q, run[i - 1], run[i - 1 + 1]);
      if ClientStep(p, w) == Some(run[i]) {
        ClientStepKeepsInv(p, q, w);
      } else {
        ServerStepKeepsInv(p, q, w);
      }
    }
  }

  // ----------------------------------------------------- progress and outcome

  /** Nobody waits for ever: when neither endpoint can move, both have stopped. */
  lemma NoDeadlock(p: ClientSide, q: ServerSide, w: World)
    requires Inv(p, q, w)
    ensures Stuck(p, q, w) <==> ClientStopped(w) && ServerStopped(w)
  {
    hide BuildClientMessage, Conf.GetConfiguration, ClientLayers, ServerReply, ServerAccepts, ClientAccepts;
  }

  function ClientRank(c: Client): nat {
    match c.phase
    case AwaitBanner => 6
    case SendClientGreeting => 5
    case AwaitServerGreeting => 4
    case SendClientMessage => 3
    case AwaitServerMessage => 2
    case AwaitReport => 1
    case _ => 0
  }

  function ServerRank(s: Server): nat {
    match s.phase
    case SendBanner => 6
    case SendServerGreeting => 5
    case AwaitClientGreeting => 4
    case SetUp => 3
    case AwaitClientMessage => 2
    case InSession => 1
    case _ => 0
  }

  lemma StepsGoDown(p: ClientSide, q: ServerSide, w: World, next: World)
    requires Step(p, q, w, next)
    ensures ClientRank(next.client) + ServerRank(next.server) < ClientRank(w.client) + ServerRank(w.server)
  {
    hide BuildClientMessage, Conf.GetConfiguration, ClientLayers, ServerReply;
  }

  /** Every run is finite: no schedule takes more than twelve steps. */
  lemma {:induction false} RunsAreShort(p: ClientSide, q: ServerSide, run: seq<World>, i: nat)
    requires IsRun(p, q, run) && i < |run|
    ensures i + ClientRank(run[i].client) + ServerRank(run[i].server) <= 12
  {
    hide Step;
    if i == 0 {
    } else {
      RunsAreShort(p, q, run, i - 1);
      assert Step(p, q, run[i - 1], run[i - 1 + 1]);
      StepsGoDown(p, q, run[i - 1], run[i]);
    }
  }

  /**
   The outcome does not depend on the interleaving: whenever a run can go no
   further, both endpoints have stopped, and which of them succeeded is a
   function of the two sides alone.
   */
  lemma OutcomeIsDetermined(p: ClientSide, q: ServerSide, run: seq<World>)
    requires IsRun(p, q, run) && Stuck(p, q, run[|run| - 1])
    ensures |run| <= 13
    ensures
      var w := run[|run| - 1];
      && ClientStopped(w) && ServerStopped(w)
      && (w.client.phase == ClientDone <==> ClientSucceeds(p, q))
      && (w.server.phase == ServerDone <==> ServerSucceeds(p, q))
  {
    hide BuildClientMessage, ServerReply, ServerAccepts, ClientAccepts, Stuck, ServerSucceeds, ClientSucceeds;
    var w := run[|run| - 1];
    RunKeepsInv(p, q, run, |run| - 1);
    RunsAreShort(p, q, run, |run| - 1);
    NoDeadlock(p, q, w);
  }

  // ------------------------------------------------------------------- safety

  /** Has this endpoint chosen the level it will use? */
  predicate ClientChose(w: World) {
    w.client.phase in {SendClientMessage, AwaitServerMessage, AwaitReport, ClientDone}
  }

  predicate ServerChose(w: World) {
    w.server.phase in {SetUp, AwaitClientMessage, InSession, ServerDone, ServerPhase.ServerFailed}
  }

  /**
   The endpoints choose the same level exactly when the level each announces,
   capped by the other's own, comes to the same; without forced levels both
   choose the smaller of the two.
   */
  lemma LevelsAgree(p: ClientSide, q: ServerSide, run: seq<World>, i: nat)
    requires IsRun(p, q, run) && i < |run| && ClientChose(run[i]) && ServerChose(run[i])
    ensures run[i].client.compat == run[i].server.compat <==>
            Min(p.level, AnnouncedLevel(q.level, q.force)) == Min(q.level, AnnouncedLevel(p.level, p.force))
    ensures p.force.None? && q.force.None? ==>
              run[i].client.compat == run[i].server.compat == Level(Min(p.level, q.level))
  {
    hide ServerAccepts, ClientAccepts, ServerSucceeds, ClientSucceeds;
    RunKeepsInv(p, q, run, i);
  }

  /** A forced level on one side alone can make the two sides disagree, for the chooser ignores it. */
  lemma ForcedLevelCanDisagree(p: ClientSide, q: ServerSide)
    requires p.level == q.level == OUR_COMPATIBILITY_NUMERIC && p.force == Some(Level(1)) && q.force == None
    ensures ClientChoice(p, q) == Level(4) && ServerChoice(p, q) == Level(1)
  {
  }

  /** The client sends its message only after it has read the server's greeting. */
  lemma ClientMessageFollowsGreeting(p: ClientSide, q: ServerSide, run: seq<World>, i: nat, k: nat)
    requires IsRun(p, q, run) && i < |run| && k < |run[i].clientSent| && run[i].clientSent[k].ToServer?
    ensures exists j :: 0 <= j < run[i].clientRead <= |run[i].serverSent| && run[i].serverSent[j].ServerGreeting?
  {
    hide ServerAccepts, ClientAccepts, ServerSucceeds, ClientSucceeds, TheReply;
    RunKeepsInv(p, q, run, i);
    assert run[i].serverSent[1].ServerGreeting?;
  }

  /** No level is forced, or one that is not above the endpoint's own. */
  ghost predicate AnnouncesOwn(level: u16, force: Option<Compatibility>) {
    AnnouncedLevel(level, force) <= level
  }

  /** Is the server new enough for the message form, or the algorithm, that the client will choose? */
  predicate ClientIsRead(p: ClientSide, q: ServerSide) {
    if Supports(ClientChoice(p, q), CmsgSmsg2) then q.level >= FeatureLevel(CmsgSmsg2)
    else WorkingConfig(p).congestion == Some(Conf.NewReno) ==> q.level >= FeatureLevel(NewReno)
  }

  /** Is the client new enough for the answer of a server that accepts? */
  predicate ServerIsRead(p: ClientSide, q: ServerSide) {
    if Supports(ServerChoice(p, q), CmsgSmsg2) then p.level >= FeatureLevel(CmsgSmsg2)
    else AsksNewReno(p, q) ==> p.level >= FeatureLevel(NewReno)
  }

  /** Both, as far as it comes to it. */
  predicate Readable(p: ClientSide, q: ServerSide) {
    && (TheClientMessage(p, q).Some? ==> ClientIsRead(p, q))
    && (ServerAccepts(p, q) ==> ServerIsRead(p, q))
  }

  lemma ClientMessageUnderstood(p: ClientSide, q: ServerSide)
    requires TheClientMessage(p, q).Some?
    ensures Understands(q.level, ToServer(TheClientMessage(p, q).value)) <==> ClientIsRead(p, q)
    ensures AnnouncesOwn(q.level, q.force) ==> ClientIsRead(p, q)
  {
    hide WorkingConfig, ToTaggedData, Configured;
  }

  lemma ReplyUnderstood(p: ClientSide, q: ServerSide)
    requires TheClientMessage(p, q).Some? && TheReply(p, q).config.Some?
    ensures Understands(p.level, ToClient(TheReply(p, q).message.value)) <==> ServerIsRead(p, q)
    ensures AnnouncesOwn(p.level, p.force) ==> ServerIsRead(p, q)
  {
    hide BuildClientMessage, Negotiation.CombineConfigurations, ToTaggedData, Attributes, AsksNewReno;
    AcceptedIsAskedFor(p, q, ClientChoice(p, q), ServerChoice(p, q));
  }

  /** Endpoints that announce no more than their own level can read each other. */
  lemma OwnLevelsAreReadable(p: ClientSide, q: ServerSide)
    requires AnnouncesOwn(p.level, p.force) && AnnouncesOwn(q.level, q.force)
    ensures Readable(p, q)
  {
    hide TheReply, TheClientMessage, ClientIsRead, ServerIsRead;
    if TheClientMessage(p, q).Some? {
      ClientMessageUnderstood(p, q);
    }
    if ServerAccepts(p, q) {
      ReplyUnderstood(p, q);
    }
  }

  /** What the two channels can contain. */
  lemma ChannelContents(p: ClientSide, q: ServerSide, w: World, k: nat)
    requires Inv(p, q, w)
    ensures k < |w.clientSent| ==>
              w.clientSent[k] == Greeting(p)
              || (TheClientMessage(p, q).Some? && w.clientSent[k] == ToServer(TheClientMessage(p, q).value))
    ensures k < |w.serverSent| ==>
              || w.serverSent[k].Banner? || w.serverSent[k].ServerGreeting? || w.serverSent[k].ClosedownReport?
              || (w.serverSent[k].ToClient? && w.serverSent[k].serverMessage.Refused?)
              || (ServerAccepts(p, q) && w.serverSent[k] == ToClient(TheReply(p, q).message.value))
  {
    hide ServerAccepts, ClientAccepts, ServerSucceeds, ClientSucceeds, TheReply, TheClientMessage;
  }

  /**
   No message is ever queued that its receiver is too old for: neither a
   version 2 message nor a request for the newer congestion algorithm reaches
   an endpoint that does not know it.
   */
  lemma NothingTooNewIsSent(p: ClientSide, q: ServerSide, run: seq<World>, i: nat, k: nat)
    requires IsRun(p, q, run) && i < |run| && Readable(p, q)
    ensures k < |run[i].clientSent| ==> Understands(q.level, run[i].clientSent[k])
    ensures k < |run[i].serverSent| ==> Understands(p.level, run[i].serverSent[k])
  {
    hide Inv, TheReply, TheClientMessage, ClientIsRead, ServerIsRead;
    RunKeepsInv(p, q, run, i);
    ChannelContents(p, q, run[i], k);
    if TheClientMessage(p, q).Some? {
      ClientMessageUnderstood(p, q);
    }
    if ServerAccepts(p, q) {
      ReplyUnderstood(p, q);
    }
  }

  /** All that has been sent by the end of a run can be read by its receiver. */
  ghost predicate AllUnderstood(p: ClientSide, q: ServerSide, w: World) {
    && (forall k :: 0 <= k < |w.clientSent| ==> Understands(q.level, w.clientSent[k]))
    && (forall k :: 0 <= k < |w.serverSent| ==> Understands(p.level, w.serverSent[k]))
  }

  /**
   Every run that goes on to its end sends only what can be read if and only if
   the two sides are readable to each other.
   */
  lemma TooNewIffUnreadable(p: ClientSide, q: ServerSide, run: seq<World>)
    requires IsRun(p, q, run) && Stuck(p, q, run[|run| - 1])
    ensures AllUnderstood(p, q, run[|run| - 1]) <==> Readable(p, q)
  {
    var i := |run| - 1;
    var w := run[i];
    RunKeepsInv(p, q, run, i);
    NoDeadlock(p, q, w);
    EndsWithMessages(p, q, w);
    hide Inv, TheReply, TheClientMessage, ClientIsRead, ServerIsRead, Stuck, IsRun, ServerAccepts;
    if Readable(p, q) {
      forall k | 0 <= k < |w.clientSent| ensures Understands(q.level, w.clientSent[k]) {
        NothingTooNewIsSent(p, q, run, i, k);
      }
      forall k | 0 <= k < |w.serverSent| ensures Understands(p.level, w.serverSent[k]) {
        NothingTooNewIsSent(p, q, run, i, k);
      }
    } else if TheClientMessage(p, q).Some? && !ClientIsRead(p, q) {
      ClientMessageUnderstood(p, q);
      assert !Understands(q.level, w.clientSent[1]);
    } else {
      AcceptedMeansSome(p, q);
      ReplyUnderstood(p, q);
      assert !Understands(p.level, w.serverSent[2]);
    }
  }

  lemma EndsWithMessages(p: ClientSide, q: ServerSide, w: World)
    requires Inv(p, q, w) && ClientStopped(w) && ServerStopped(w)
    ensures TheClientMessage(p, q).Some? ==>
              |w.clientSent| == 2 && w.clientSent[1] == ToServer(TheClientMessage(p, q).value)
    ensures ServerAccepts(p, q) ==> |w.serverSent| >= 3 && w.serverSent[2] == ToClient(TheReply(p, q).message.value)
  {
    hide TheReply, TheClientMessage, ServerAccepts, ClientAccepts;
  }

  lemma AcceptedMeansSome(p: ClientSide, q: ServerSide)
    ensures ServerAccepts(p, q) ==> TheClientMessage(p, q).Some? && TheReply(p, q).config.Some?
  {
    hide TheReply, TheClientMessage;
  }

  /**
   A server of level 1 or 2 that announces 3 or more gets a version 2 message
   from a newer client, and cannot read it.
   */
  lemma AnnouncingMoreIsTooNew(p: ClientSide, q: ServerSide)
    requires p.level >= 3 && q.level < 3 && AnnouncedLevel(q.level, q.force) >= 3
    ensures TheClientMessage(p, q).Some? && TheClientMessage(p, q).value.ClientV2?
    ensures !Understands(q.level, ToServer(TheClientMessage(p, q).value)) && !Readable(p, q)
  {
    hide WorkingConfig, Configured, ServerAccepts;
  }

  // ---------------------------------------------------------------- agreement

  /**
   With a readable client configuration the client accepts exactly when the
   server does and its answer is not too new for the client; without levels
   forced above their own, both ends succeed or neither does.
   */
  lemma BothOrNeither(p: ClientSide, q: ServerSide)
    requires Conf.GetOptional(p.layers).Ok?
    ensures ClientAccepts(p, q) <==> ServerAccepts(p, q) && ServerIsRead(p, q)
    ensures AnnouncesOwn(p.level, p.force) ==> (ClientAccepts(p, q) <==> ServerAccepts(p, q))
  {
    if ServerAccepts(p, q) {
      ReplyUnderstood(p, q);
      ClientMessageUnderstood(p, q);
      hide BuildClientMessage, ServerReply, ClientLayers, Agree, ServerIsRead, ClientIsRead;
      EndToEndAgreement(p, q, ClientChoice(p, q), ServerChoice(p, q));
    }
  }

  lemma AcceptedState(p: ClientSide, q: ServerSide, w: World)
    requires Inv(p, q, w) && w.client.phase in {AwaitReport, ClientDone}
    ensures ServerAccepts(p, q) && w.server.config == TheReply(p, q).config
    ensures w.client.layers == ClientLayers(p, TheReply(p, q).message.value)
  {
    hide BuildClientMessage, ServerReply, ClientLayers, Conf.GetConfiguration;
  }

  /** An accepting server replied to the client's own message. */
  lemma AcceptedReply(p: ClientSide, q: ServerSide)
    requires ServerAccepts(p, q)
    ensures TheReply(p, q) == ServerReply(q, ServerChoice(p, q), TheClientMessage(p, q).value)
  {
    hide BuildClientMessage, ServerReply;
  }

  /**
   In every reachable world in which the client has taken the server's answer,
   the client's configuration and the one the server is using agree.
   */
  lemma RunsAgree(p: ClientSide, q: ServerSide, run: seq<World>, i: nat)
    requires IsRun(p, q, run) && i < |run| && Conf.GetOptional(p.layers).Ok?
    requires run[i].client.phase in {AwaitReport, ClientDone}
    ensures q.layers.Layers? && run[i].server.config.Some? && Conf.GetConfiguration(run[i].client.layers).Ok?
    ensures Agree(Conf.GetConfiguration(run[i].client.layers).value, run[i].server.config.value,
                  WindowExcepted(p.layers.dict, q.layers.dict), TimeoutExcepted(p.layers.dict, q.layers.dict))
  {
    hide Inv, TheReply, BuildClientMessage, ServerReply, ClientLayers, Agree, WindowExcepted, TimeoutExcepted;
    hide Conf.GetConfiguration, Conf.GetOptional;
    RunKeepsInv(p, q, run, i);
    AcceptedState(p, q, run[i]);
    AcceptedReply(p, q);
    EndToEndAgreement(p, q, ClientChoice(p, q), ServerChoice(p, q));
  }
}
