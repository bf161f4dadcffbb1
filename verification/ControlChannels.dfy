/**
 The control channel as each process runs it: straight-line code over a stream
 of messages in and a stream out. Each procedure does exactly what the moves of
 the transition system do one by one, and every interleaved run takes its two
 endpoints where these procedures take them.
 */
module ControlChannels {
  import opened Wrappers
  import opened Compat
  import Conf = Configurations
  import opened Messages
  import opened Endpoints
  import opened Handshake
  import Negotiation

  function NextInput(inbox: seq<Message>): Input {
    if inbox == [] then EndOfStream else Received(inbox[0])
  }

  /** The moves of a client, one after the other, until it has its configuration or fails. */
  function DriveClient(p: ClientSide, c: Client, inbox: seq<Message>, outbox: seq<Message>)
    : (Client, seq<Message>, seq<Message>)
    decreases ClientRank(c)
  {
    if c.phase in {AwaitReport, ClientDone, ClientFailed} then (c, inbox, outbox)
    else
      match ClientMove(p, c, NextInput(inbox))
      case Go(next, consumes, sends) => DriveClient(p, next, if consumes then inbox[1..] else inbox,
                    if sends == [] then outbox else outbox + sends)
  }

  /** The moves of a server, one after the other, until it is in session or fails. */
  function DriveServer(q: ServerSide, s: Server, inbox: seq<Message>, outbox: seq<Message>)
    : (Server, seq<Message>, seq<Message>)
    decreases ServerRank(s)
  {
    if s.phase in {InSession, ServerDone, ServerPhase.ServerFailed} then (s, inbox, outbox)
    else
      match ServerMove(q, s, NextInput(inbox))
      case Go(next, consumes, sends) => DriveServer(q, next, if consumes then inbox[1..] else inbox,
                    if sends == [] then outbox else outbox + sends)
  }

  /** One move of the client's procedure. */
  lemma ClientDrives(p: ClientSide, c: Client, inbox: seq<Message>, outbox: seq<Message>,
                     next: Client, inbox': seq<Message>, outbox': seq<Message>)
    requires c.phase !in {AwaitReport, ClientDone, ClientFailed}
    requires
      var move := ClientMove(p, c, NextInput(inbox));
      move.Go? && next == move.next && inbox' == (if move.consumes then inbox[1..] else inbox) &&
        outbox' == outbox + move.sends
    ensures DriveClient(p, c, inbox, outbox) == DriveClient(p, next, inbox', outbox')
    ensures next.phase in {AwaitReport, ClientDone, ClientFailed} ==>
            DriveClient(p, next, inbox', outbox') == (next, inbox', outbox')
  {
    hide ClientMove;
    if ClientMove(p, c, NextInput(inbox)).sends == [] {
      assert outbox' == outbox;
    }
  }

  /** One move of the server's procedure. */
  lemma ServerDrives(q: ServerSide, s: Server, inbox: seq<Message>, outbox: seq<Message>,
                     next: Server, inbox': seq<Message>, outbox': seq<Message>)
    requires s.phase !in {InSession, ServerDone, ServerPhase.ServerFailed}
    requires
      var move := ServerMove(q, s, NextInput(inbox));
      move.Go? && next == move.next && inbox' == (if move.consumes then inbox[1..] else inbox) &&
        outbox' == outbox + move.sends
    ensures DriveServer(q, s, inbox, outbox) == DriveServer(q, next, inbox', outbox')
    ensures next.phase in {InSession, ServerDone, ServerPhase.ServerFailed} ==>
              DriveServer(q, next, inbox', outbox') == (next, inbox', outbox')
  {
    hide ServerMove;
    if ServerMove(q, s, NextInput(inbox)).sends == [] {
      assert outbox' == outbox;
    }
  }

  /** The server's configuration layers after what it has received: only an intelligible client message changes them. */
  function ManagerAfter(q: ServerSide, inbox: seq<Message>): Conf.Layers {
    if |inbox| >= 2 && inbox[0].ClientGreeting? && q.setupOk && inbox[1].ToServer? && Understands(q.level, inbox[1])
    then ServerLayers(q, inbox[1].clientMessage)
    else q.layers
  }

  class ControlChannel {
    /** Everything that the peer will still send before it closes its end. */
    var inbox: seq<Message>
    /** Everything sent so far. */
    var outbox: seq<Message>
    var selectedCompat: Compatibility

    constructor (inbox: seq<Message>)
      ensures this.inbox == inbox && outbox == [] && selectedCompat == Unknown
    {
      this.inbox := inbox;
      outbox := [];
      selectedCompat := Unknown;
    }

    method Send(m: Message)
      modifies this`outbox
      ensures outbox == old(outbox) + [m]
    {
      outbox := outbox + [m];
    }

    method Receive() returns (input: Input)
      modifies this`inbox
      ensures input == NextInput(old(inbox))
      ensures inbox == if input.Received? then old(inbox)[1..] else old(inbox)
    {
      if inbox == [] {
        return EndOfStream;
      }
      input := Received(inbox[0]);
      inbox := inbox[1..];
    }

    /** Runs the client side up to and including its final configuration. */
    method RunClient(p: ClientSide, manager: Conf.Manager) returns (config: Option<Conf.Configuration>)
      requires manager.data == p.layers && selectedCompat == Unknown
      modifies this, manager
      ensures
        var (c, i, o) := DriveClient(p, Client(AwaitBanner, Unknown, p.layers), old(inbox), old(outbox));
        && (config.Some? <==> c.phase == AwaitReport)
        && inbox == i && outbox == o && selectedCompat == c.compat
        && (config.Some? ==> manager.data == c.layers && Conf.GetConfiguration(c.layers) == Ok(config.value))
    {
      hide DriveClient, BuildClientMessage, ClientLayers, Conf.GetConfiguration, Understands;
      ghost var c := Client(AwaitBanner, Unknown, p.layers);
      ghost var i0, o0 := inbox, outbox;
      config := None;

      var banner := Receive();
      ghost var c1 := ClientReceives(p, c, banner);
      ClientDrives(p, c, i0, o0, c1, inbox, outbox);
      if banner != Received(Banner) {
        return;
      }

      Send(ClientGreeting(ToWire(p.force.GetOr(Level(p.level))), p.remoteDebug));
      ghost var c2, i1 := c1.(phase := AwaitServerGreeting), inbox;
      ClientDrives(p, c1, i1, o0, c2, i1, outbox);
      var greeting := Receive();
      ghost var c3 := ClientReceives(p, c2, greeting);
      ClientDrives(p, c2, i1, outbox, c3, inbox, outbox);
      if !greeting.Received? || !greeting.message.ServerGreeting? {
        return;
      }
      selectedCompat := Choose(p.level, greeting.message.serverLevel);

      var message := BuildClientMessage(p, selectedCompat);
      ghost var o1, i2 := outbox, inbox;
      if message.None? {
        ClientDrives(p, c3, i2, o1, c3.(phase := ClientFailed), i2, o1);
        return;
      }
      Send(ToServer(message.value));
      ghost var c4 := c3.(phase := AwaitServerMessage);
      ClientDrives(p, c3, i2, o1, c4, i2, outbox);

      var answer := Receive();
      ghost var c5 := ClientReceives(p, c4, answer);
      ClientDrives(p, c4, i2, outbox, c5, inbox, outbox);
      if !answer.Received? || !answer.message.ToClient? || !Understands(p.level, answer.message) {
        return;
      }
      var m := answer.message.serverMessage;
      if !m.ServerV1? && !m.ServerV2? {
        return;
      }
      var layer := ProvideData(AsServerV2(m));
      manager.MergeProvider(layer);
      manager.ApplySystemDefault();
      assert manager.data == ClientLayers(p, m) by { ClientLayersAre(p, m); }
      var got := Conf.GetConfiguration(manager.data);
      if got.Ok? {
        config := Some(got.value);
      }
    }

    /** Runs the server side up to the point where it is ready for the session. */
    method RunServer(q: ServerSide, manager: Conf.Manager) returns (config: Option<Conf.Configuration>)
      requires manager.data == q.layers && selectedCompat == Unknown
      modifies this, manager
      ensures
        var (s, i, o) := DriveServer(q, Server(SendBanner, Unknown, None), old(inbox), old(outbox));
        && (config.Some? <==> s.phase == InSession)
        && inbox == i && outbox == o && selectedCompat == s.compat
        && (config.Some? ==> config == s.config)
        && manager.data == ManagerAfter(q, old(inbox))
    {
      hide DriveServer, ReplyWith, Understands, Negotiation.CombineConfigurations, AsClientV2;
      ghost var s := Server(SendBanner, Unknown, None);
      ghost var i0, o0 := inbox, outbox;
      config := None;

      Send(Banner);
      ghost var s1, o1 := s.(phase := SendServerGreeting), outbox;
      ServerDrives(q, s, i0, o0, s1, i0, o1);
      Send(ServerGreeting(ToWire(q.force.GetOr(Level(q.level)))));
      ghost var s2, o2 := s.(phase := AwaitClientGreeting), outbox;
      ServerDrives(q, s1, i0, o1, s2, i0, o2);

      var greeting := Receive();
      ghost var i1 := inbox;
      if !greeting.Received? || !greeting.message.ClientGreeting? {
        ServerDrives(q, s2, i0, o2, s2.(phase := ServerPhase.ServerFailed), i1, o2);
        return;
      }
      selectedCompat := Choose(q.level, greeting.message.clientLevel);
      ghost var s3 := s2.(phase := SetUp, compat := selectedCompat);
      ServerDrives(q, s2, i0, o2, s3, i1, o2);
      ghost var s4 := s3.(phase := if q.setupOk then AwaitClientMessage else ServerPhase.ServerFailed);
      ServerDrives(q, s3, i1, o2, s4, i1, o2);
      if !q.setupOk {
        return;
      }

      var input := Receive();
      ghost var reply := ReplyTo(q, selectedCompat, input);
      if !input.Received? || !input.message.ToServer? || !Understands(q.level, input.message) {
        Send(ToClient(Refused(Malformed)));
      } else if input.message.clientMessage.ClientToFollow? {
        Send(ToClient(Refused(Malformed)));
      } else {
        var message2 := AsClientV2(input.message.clientMessage);
        var negotiated := Negotiation.CombineBandwidthConfigurations(manager, message2);
        var answer := ReplyWith(q, selectedCompat, message2, negotiated);
        if answer.message.Some? {
          Send(ToClient(answer.message.value));
        }
        config := answer.config;
      }
      ghost var phase := if reply.config.Some? then InSession else ServerPhase.ServerFailed;
      ghost var s5 := s4.(phase := phase, config := reply.config);
      ServerDrives(q, s4, i1, o2, s5, inbox, outbox);
    }
  }

  lemma ClientLayersAre(p: ClientSide, m: ServerMessage)
    requires m.ServerV1? || m.ServerV2?
    ensures ClientLayers(p, m) == Conf.Join(Conf.Merge(p.layers, ServerLayer(AsServerV2(m))), Conf.SYSTEM_DEFAULT)
  {
  }

  // ----------------------------------------- the procedures and the interleavings

  /** The procedure of a client whose peer sends its greeting and an acceptable answer. */
  lemma ClientProcedure(p: ClientSide, q: ServerSide, inbox: seq<Message>)
    requires ClientAccepts(p, q) && |inbox| >= 3
    requires inbox[0] == Banner && inbox[1] == ServerGreeting(AnnouncedLevel(q.level, q.force))
    requires inbox[2] == ToClient(TheReply(p, q).message.value)
    ensures
      var reply := TheReply(p, q).message.value;
      DriveClient(p, Initial(p).client, inbox, []) ==
      (Client(AwaitReport, ClientChoice(p, q), ClientLayers(p, reply)), inbox[3..],
       [Greeting(p), ToServer(TheClientMessage(p, q).value)])
  {
    hide BuildClientMessage, ClientLayers, Conf.GetConfiguration, TheReply, Understands;
    hide DriveClient;
    var greeting, message := Greeting(p), ToServer(TheClientMessage(p, q).value);
    var c := Initial(p).client;
    var i1, i2 := inbox[1..], inbox[2..];
    assert i1[0] == inbox[1] && i2[0] == inbox[2] && i1[1..] == i2 && i2[1..] == inbox[3..];
    var c1 := c.(phase := SendClientGreeting);
    ClientDrives(p, c, inbox, [], c1, i1, []);
    var c2 := c.(phase := AwaitServerGreeting);
    ClientDrives(p, c1, i1, [], c2, i1, [greeting]);
    var c3 := c.(phase := SendClientMessage, compat := ClientChoice(p, q));
    ClientDrives(p, c2, i1, [greeting], c3, i2, [greeting]);
    var c4 := c3.(phase := AwaitServerMessage);
    ClientDrives(p, c3, i2, [greeting], c4, i2, [greeting, message]);
    var c5 := c4.(phase := AwaitReport, layers := ClientLayers(p, TheReply(p, q).message.value));
    ClientDrives(p, c4, i2, [greeting, message], c5, inbox[3..], [greeting, message]);
  }

  lemma AcceptedHistory(p: ClientSide, q: ServerSide, w: World)
    requires Inv(p, q, w)
    ensures w.client.phase in {AwaitReport, ClientDone} ==>
              && ClientAccepts(p, q) && |w.serverSent| >= 3
              && w.serverSent[..3] ==
                 [Banner, ServerGreeting(AnnouncedLevel(q.level, q.force)), ToClient(TheReply(p, q).message.value)]
              && w.clientSent == [Greeting(p), ToServer(TheClientMessage(p, q).value)]
              && w.client.compat == ClientChoice(p, q)
              && w.client.layers == ClientLayers(p, TheReply(p, q).message.value)
    ensures w.server.phase in {InSession, ServerDone} ==>
              && ServerAccepts(p, q) && |w.serverSent| >= 3
              && w.serverSent[..3] ==
                 [Banner, ServerGreeting(AnnouncedLevel(q.level, q.force)), ToClient(TheReply(p, q).message.value)]
              && w.clientSent == [Greeting(p), ToServer(TheClientMessage(p, q).value)]
              && w.server.compat == ServerChoice(p, q) && w.server.config == TheReply(p, q).config
  {
    hide BuildClientMessage, ClientLayers, Conf.GetConfiguration, ReplyTo, Understands;
  }

  /** A client that has its configuration got there as the procedure does, on what the server has sent. */
  lemma RunMatchesClientProcedure(p: ClientSide, q: ServerSide, run: seq<World>, i: nat)
    requires IsRun(p, q, run) && i < |run| && run[i].client.phase in {AwaitReport, ClientDone}
    ensures |run[i].serverSent| >= 3
    ensures DriveClient(p, Initial(p).client, run[i].serverSent, []) ==
            (run[i].client.(phase := AwaitReport), run[i].serverSent[3..], run[i].clientSent)
  {
    hide Inv, DriveClient, TheReply, ClientLayers, ClientAccepts;
    RunKeepsInv(p, q, run, i);
    AcceptedHistory(p, q, run[i]);
    ClientProcedure(p, q, run[i].serverSent);
  }

  /** The procedure of a server whose peer sends its greeting and an acceptable message. */
  lemma ServerProcedure(p: ClientSide, q: ServerSide, inbox: seq<Message>)
    requires ServerAccepts(p, q) && |inbox| == 2
    requires inbox[0] == Greeting(p) && inbox[1] == ToServer(TheClientMessage(p, q).value)
    ensures
      var reply := TheReply(p, q);
      DriveServer(q, Initial(p).server, inbox, []) ==
      (Server(InSession, ServerChoice(p, q), reply.config), [],
       [Banner, ServerGreeting(AnnouncedLevel(q.level, q.force)), ToClient(reply.message.value)])
  {
    hide BuildClientMessage, ReplyTo, Understands;
    hide DriveServer;
    var hello := ServerGreeting(AnnouncedLevel(q.level, q.force));
    var s := Initial(p).server;
    var i1 := inbox[1..];
    assert i1[0] == inbox[1] && i1[1..] == [];
    var s1 := s.(phase := SendServerGreeting);
    ServerDrives(q, s, inbox, [], s1, inbox, [Banner]);
    var s2 := s.(phase := AwaitClientGreeting);
    ServerDrives(q, s1, inbox, [Banner], s2, inbox, [Banner, hello]);
    var s3 := s.(phase := SetUp, compat := ServerChoice(p, q));
    ServerDrives(q, s2, inbox, [Banner, hello], s3, i1, [Banner, hello]);
    var s4 := s3.(phase := AwaitClientMessage);
    ServerDrives(q, s3, i1, [Banner, hello], s4, i1, [Banner, hello]);
    var reply := TheReply(p, q);
    var s5 := s4.(phase := InSession, config := reply.config);
    ServerDrives(q, s4, i1, [Banner, hello], s5, [], [Banner, hello, ToClient(reply.message.value)]);
  }

  /** A server that is in session got there as the procedure does, on what the client has sent. */
  lemma RunMatchesServerProcedure(p: ClientSide, q: ServerSide, run: seq<World>, i: nat)
    requires IsRun(p, q, run) && i < |run| && run[i].server.phase in {InSession, ServerDone}
    ensures |run[i].serverSent| >= 3
    ensures DriveServer(q, Initial(p).server, run[i].clientSent, []) ==
            (run[i].server.(phase := InSession), [], run[i].serverSent[..3])
  {
    hide Inv, DriveServer, TheReply, ClientLayers, ServerAccepts;
    RunKeepsInv(p, q, run, i);
    AcceptedHistory(p, q, run[i]);
    ServerProcedure(p, q, run[i].clientSent);
  }

  /** A server in session goes on with the configuration that its layers come to. */
  lemma SessionConfiguration(q: ServerSide, inbox: seq<Message>)
    ensures
      var s := DriveServer(q, Server(SendBanner, Unknown, None), inbox, []).0;
      var c := Conf.GetConfiguration(ManagerAfter(q, inbox));
      s.phase == InSession ==> c.Ok? && s.config == Some(c.value)
  {
    hide DriveServer, ReplyTo, ManagerAfter;
    var hello := ServerGreeting(AnnouncedLevel(q.level, q.force));
    var s := Server(SendBanner, Unknown, None);
    var sent := [Banner, hello];
    ServerDrives(q, s, inbox, [], s.(phase := SendServerGreeting), inbox, [Banner]);
    ServerDrives(q, s.(phase := SendServerGreeting), inbox, [Banner], s.(phase := AwaitClientGreeting), inbox, sent);
    var s2 := s.(phase := AwaitClientGreeting);
    var failed := ServerPhase.ServerFailed;
    if inbox == [] || !inbox[0].ClientGreeting? {
      ServerDrives(q, s2, inbox, sent, s2.(phase := failed), if inbox == [] then [] else inbox[1..], sent);
    } else {
      var s3, i1 := s2.(phase := SetUp, compat := Choose(q.level, inbox[0].clientLevel)), inbox[1..];
      ServerDrives(q, s2, inbox, sent, s3, i1, sent);
      var s4 := s3.(phase := if q.setupOk then AwaitClientMessage else failed);
      ServerDrives(q, s3, i1, sent, s4, i1, sent);
      if q.setupOk {
        var reply := ReplyTo(q, s4.compat, NextInput(i1));
        var s5 := s4.(phase := if reply.config.Some? then InSession else failed, config := reply.config);
        var answer := if reply.message.Some? then [ToClient(reply.message.value)] else [];
        ServerDrives(q, s4, i1, sent, s5, if i1 == [] then [] else i1[1..], sent + answer);
        ReplyConfiguration(q, s4.compat, inbox);
      }
    }
  }

  lemma ReplyConfiguration(q: ServerSide, compat: Compatibility, inbox: seq<Message>)
    requires inbox != [] && inbox[0].ClientGreeting? && q.setupOk
    ensures
      var reply := ReplyTo(q, compat, NextInput(inbox[1..]));
      var c := Conf.GetConfiguration(ManagerAfter(q, inbox));
      reply.config.Some? ==> c.Ok? && reply.config == Some(c.value)
  {
    hide Conf.GetConfiguration, Understands, AsClientV2, ToTaggedData, Negotiation.FirstConflict,
         Negotiation.NegotiatedLayers, Conf.GetOptional, Conf.TryValidate, NewServerMessage;
  }
}
