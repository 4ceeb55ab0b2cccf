/** The p2p event loop object and its handlers (src/network/event_loop.rs). */
module P2pLoop {
  import opened Wrappers
  import opened P2p

  /** What `HashMap::insert` throws away. */
  function Displaced(m: map<nat, Sender>, id: nat): seq<Sender> {
    if id in m then [m[id]] else []
  }

  /**
   Each handler returns the replies it sends and the senders it drops.  `ok` is
   false when an `expect` fails, in which case nothing was changed.
   */
  class PyrsiaEventLoop {
    var bootstrapped: bool
    var pendingBootstrap: map<QueryId, Sender>
    var pendingDial: map<PeerId, Sender>
    var pendingStartProviding: map<QueryId, Sender>
    var pendingListProviders: map<QueryId, PendingListProviders>
    var pendingRequestArtifact: map<RequestId, Sender>
    var pendingRequestBuild: map<RequestId, Sender>
    var pendingIdleMetricRequests: map<RequestId, Sender>
    var pendingBlockchainRequests: map<RequestId, Sender>
    var pendingBuildStatusRequests: map<RequestId, Sender>

    ghost function Model(): State
      reads this
    {
      State(bootstrapped, pendingDial,
            Queries(pendingBootstrap, pendingStartProviding, pendingListProviders),
            Requests(pendingRequestArtifact, pendingRequestBuild, pendingIdleMetricRequests,
                     pendingBlockchainRequests, pendingBuildStatusRequests))
    }

    constructor ()
      ensures Model() == INITIAL
    {
      bootstrapped := false;
      pendingBootstrap, pendingDial, pendingStartProviding, pendingListProviders := map[], map[], map[], map[];
      pendingRequestArtifact, pendingRequestBuild, pendingIdleMetricRequests := map[], map[], map[];
      pendingBlockchainRequests, pendingBuildStatusRequests := map[], map[];
    }

    method HandleKademliaEvent(e: Event) returns (ok: bool, sent: seq<Reply>)
      requires !e.Response? && !e.OutboundFailure? && !e.ConnectionEstablished? && !e.OutgoingConnectionError?
      modifies this
      ensures HandleEvent(old(Model()), e) == if ok then Continues(Model(), sent, []) else Panics
      ensures !ok ==> Model() == old(Model())
    {
      ok, sent := true, [];
      match e {
        case ProvidingStarted(id) =>
          ok := id in pendingStartProviding;
          if ok {
            var sender := pendingStartProviding[id];
            pendingStartProviding := pendingStartProviding - {id};
            sent := [Reply(sender, Done)];
          }
        case FoundProviders(id, providers) =>
          ok := id in pendingListProviders;
          if ok {
            var entry := pendingListProviders[id];
            pendingListProviders := pendingListProviders[id := entry.(providers := entry.providers + providers)];
          }
        case ProvidersFinished(id) =>
          ok := id in pendingListProviders;
          if ok {
            var entry := pendingListProviders[id];
            pendingListProviders := pendingListProviders - {id};
            sent := [Reply(entry.sender, Providers(entry.providers))];
          }
        case BootstrapProgressed(id, remaining) =>
          if remaining == 0 {
            ok, sent := FinishBootstrap(id, Done);
          }
        case BootstrapFailed(id) =>
          ok, sent := FinishBootstrap(id, Failed);
        case _ =>
      }
    }

    method FinishBootstrap(id: QueryId, content: Content) returns (ok: bool, sent: seq<Reply>)
      modifies this
      ensures Complete(old(Model()), Query(Bootstrap, id), content) ==
              if ok then Continues(Model(), sent, []) else Panics
      ensures !ok ==> Model() == old(Model())
    {
      ok, sent := id in pendingBootstrap, [];
      if ok {
        sent := [Reply(pendingBootstrap[id], content)];
        pendingBootstrap := pendingBootstrap - {id};
      }
    }

    /** The five request-response handlers, which differ in the map they use. */
    method HandleRequestResponseEvent(e: Event) returns (ok: bool, sent: seq<Reply>)
      requires e.Response? || e.OutboundFailure?
      modifies this
      ensures HandleEvent(old(Model()), e) == if ok then Continues(Model(), sent, []) else Panics
      ensures !ok ==> Model() == old(Model())
    {
      var content := if e.Response? then Answer(e.payload) else Failed;
      ok, sent := true, [];
      match e.protocol {
        case Artifact =>
          ok := e.id in pendingRequestArtifact;
          if ok {
            sent := [Reply(pendingRequestArtifact[e.id], content)];
            pendingRequestArtifact := pendingRequestArtifact - {e.id};
          }
        case Build =>
          ok := e.id in pendingRequestBuild;
          if ok {
            sent := [Reply(pendingRequestBuild[e.id], content)];
            pendingRequestBuild := pendingRequestBuild - {e.id};
          }
        case IdleMetric =>
          ok := e.id in pendingIdleMetricRequests;
          if ok {
            sent := [Reply(pendingIdleMetricRequests[e.id], content)];
            pendingIdleMetricRequests := pendingIdleMetricRequests - {e.id};
          }
        case Blockchain =>
          ok := e.id in pendingBlockchainRequests;
          if ok {
            sent := [Reply(pendingBlockchainRequests[e.id], content)];
            pendingBlockchainRequests := pendingBlockchainRequests - {e.id};
          }
        case BuildStatus =>
          ok := e.id in pendingBuildStatusRequests;
          if ok {
            sent := [Reply(pendingBuildStatusRequests[e.id], content)];
            pendingBuildStatusRequests := pendingBuildStatusRequests - {e.id};
          }
      }
    }

    method HandleSwarmEvent(e: Event) returns (sent: seq<Reply>)
      requires e.ConnectionEstablished? || e.OutgoingConnectionError? || e.Ignored?
      modifies this
      ensures HandleEvent(old(Model()), e) == Continues(Model(), sent, [])
    {
      sent := [];
      match e {
        case ConnectionEstablished(peer, dialer) =>
          if dialer && peer in pendingDial {
            sent := [Reply(pendingDial[peer], Done)];
            pendingDial := pendingDial - {peer};
          }
        case OutgoingConnectionError(Some(peer)) =>
          if peer in pendingDial {
            sent := [Reply(pendingDial[peer], Failed)];
            pendingDial := pendingDial - {peer};
          }
        case _ =>
      }
    }

    method SendRequest(protocol: Protocol, sender: Sender, id: RequestId) returns (dropped: seq<Sender>)
      modifies this
      ensures Enter(old(Model()), Request(protocol, id), sender) == Continues(Model(), [], dropped)
    {
      match protocol {
        case Artifact =>
          dropped := Displaced(pendingRequestArtifact, id);
          pendingRequestArtifact := pendingRequestArtifact[id := sender];
        case Build =>
          dropped := Displaced(pendingRequestBuild, id);
          pendingRequestBuild := pendingRequestBuild[id := sender];
        case IdleMetric =>
          dropped := Displaced(pendingIdleMetricRequests, id);
          pendingIdleMetricRequests := pendingIdleMetricRequests[id := sender];
        case Blockchain =>
          dropped := Displaced(pendingBlockchainRequests, id);
          pendingBlockchainRequests := pendingBlockchainRequests[id := sender];
        case BuildStatus =>
          dropped := Displaced(pendingBuildStatusRequests, id);
          pendingBuildStatusRequests := pendingBuildStatusRequests[id := sender];
      }
    }

    method HandleCommand(c: Command) returns (ok: bool, sent: seq<Reply>, dropped: seq<Sender>)
      modifies this
      ensures P2p.HandleCommand(old(Model()), c) == if ok then Continues(Model(), sent, dropped) else Panics
      ensures !ok ==> Model() == old(Model())
    {
      ok, sent, dropped := true, [], [];
      match c {
        case AddProbe(peer, sender) =>
          if peer in pendingDial {
            dropped := [sender];
          } else {
            pendingDial := pendingDial[peer := sender];
          }
        case Dial(peer, sender, dialed) =>
          if peer in pendingDial {
            dropped := [sender];
          } else if dialed {
            pendingDial := pendingDial[peer := sender];
          } else {
            sent := [Reply(sender, Failed)];
          }
        case BootstrapDht(sender, started) =>
          if bootstrapped {
            dropped := [sender];
          } else if started.Some? {
            bootstrapped := true;
            dropped := Displaced(pendingBootstrap, started.value);
            pendingBootstrap := pendingBootstrap[started.value := sender];
          } else {
            sent := [Reply(sender, Failed)];
          }
        case Provide(sender, started) =>
          ok := started.Some?;
          if ok {
            dropped := Displaced(pendingStartProviding, started.value);
            pendingStartProviding := pendingStartProviding[started.value := sender];
          }
        case ListProviders(sender, id) =>
          if id in pendingListProviders {
            dropped := [pendingListProviders[id].sender];
          }
          pendingListProviders := pendingListProviders[id := PendingListProviders(sender, {})];
        case SendRequest(protocol, sender, id) =>
          dropped := SendRequest(protocol, sender, id);
        case AnsweredAtOnce(sender, reply) =>
          sent := [Reply(sender, reply)];
        case Status(sender, waiting, reply) =>
          ok := waiting;
          if ok {
            sent := [Reply(sender, reply)];
          }
        case Respond(_, channelOpen) =>
          ok := channelOpen;
      }
    }
  }
}
