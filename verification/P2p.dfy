/**
 The request/response correlator of the p2p event loop
 (src/network/event_loop.rs): nine maps of pending reply senders.

 Results of calls into libp2p are inputs.  What libp2p promises is stated by
 `Permitted`: new ids are fresh, and an outbound id is reported only while it
 is open and completes at most once.
 */
module P2p {
  import opened Wrappers
  import opened Bags

  type QueryId = nat
  type RequestId = nat
  type PeerId = nat
  type Sender = nat
  type Payload = seq<nat>

  /** The five request-response behaviours, each with its own ids. */
  datatype Protocol = Artifact | Build | IdleMetric | Blockchain | BuildStatus

  /** The Kademlia queries, which share one id space. */
  datatype QueryKind = Bootstrap | StartProviding | GetProviders

  datatype PendingListProviders = PendingListProviders(sender: Sender, providers: set<PeerId>)

  /** The pending Kademlia queries. */
  datatype Queries = Queries(
    bootstrap: map<QueryId, Sender>,
    startProviding: map<QueryId, Sender>,
    listProviders: map<QueryId, PendingListProviders>)

  /** The pending requests, one map for each request-response behaviour. */
  datatype Requests = Requests(
    artifact: map<RequestId, Sender>,
    build: map<RequestId, Sender>,
    idleMetric: map<RequestId, Sender>,
    blockchain: map<RequestId, Sender>,
    buildStatus: map<RequestId, Sender>)

  datatype State = State(bootstrapped: bool, pendingDial: map<PeerId, Sender>, queries: Queries, requests: Requests)

  const INITIAL := State(false, map[], Queries(map[], map[], map[]), Requests(map[], map[], map[], map[], map[]))

  datatype Command =
    | AddProbe(peer: PeerId, sender: Sender)
    | Dial(peer: PeerId, sender: Sender, dialed: bool)
    | BootstrapDht(sender: Sender, started: Option<QueryId>)
    | Provide(sender: Sender, started: Option<QueryId>)
    | ListProviders(sender: Sender, query: QueryId)
    | SendRequest(protocol: Protocol, sender: Sender, sent: RequestId)
    /** `Listen`, `ListPeers`, `VerifyBuild` and `BroadcastBlock` reply before they return. */
    | AnsweredAtOnce(sender: Sender, reply: Content)
    /** `Status` does so too, but unwraps the result of sending. */
    | Status(sender: Sender, waiting: bool, reply: Content)
    /** The `Respond...` commands carry no sender; they expect the channel to be open. */
    | Respond(protocol: Protocol, channelOpen: bool)

  datatype Event =
    | ProvidingStarted(id: QueryId)
    | FoundProviders(id: QueryId, providers: set<PeerId>)
    | ProvidersFinished(id: QueryId)
    | ProvidersFailed(id: QueryId)
    | BootstrapProgressed(id: QueryId, remaining: nat)
    | BootstrapFailed(id: QueryId)
    | Response(protocol: Protocol, id: RequestId, payload: Payload)
    | OutboundFailure(protocol: Protocol, id: RequestId)
    | ConnectionEstablished(peer: PeerId, dialer: bool)
    | OutgoingConnectionError(failed: Option<PeerId>)
    /** Inbound requests and the events the loop only logs. */
    | Ignored

  datatype Content = Done | Failed | Answer(payload: Payload) | Providers(peers: set<PeerId>)

  datatype Reply = Reply(sender: Sender, content: Content)

  /** `Panics` is a failed `expect` or `unwrap`. */
  datatype Outcome = Continues(st: State, sent: seq<Reply>, dropped: seq<Sender>) | Panics

  // ----------------------------------------------------------- tickets into the maps

  /** What names one outbound operation. */
  datatype Ticket = Query(kind: QueryKind, id: QueryId) | Request(protocol: Protocol, request: RequestId)

  function RequestsOf(r: Requests, p: Protocol): map<RequestId, Sender> {
    match p
    case Artifact => r.artifact
    case Build => r.build
    case IdleMetric => r.idleMetric
    case Blockchain => r.blockchain
    case BuildStatus => r.buildStatus
  }

  function WithRequests(r: Requests, p: Protocol, m: map<RequestId, Sender>): Requests {
    match p
    case Artifact => r.(artifact := m)
    case Build => r.(build := m)
    case IdleMetric => r.(idleMetric := m)
    case Blockchain => r.(blockchain := m)
    case BuildStatus => r.(buildStatus := m)
  }

  function Get<K(==), V>(m: map<K, V>, k: K): Option<V> {
    if k in m then Some(m[k]) else None
  }

  function QuerySender(q: Queries, kind: QueryKind, id: QueryId): Option<Sender> {
    match kind
    case Bootstrap => Get(q.bootstrap, id)
    case StartProviding => Get(q.startProviding, id)
    case GetProviders => if id in q.listProviders then Some(q.listProviders[id].sender) else None
  }

  function InsertQuery(q: Queries, kind: QueryKind, id: QueryId, s: Sender): Queries {
    match kind
    case Bootstrap => q.(bootstrap := q.bootstrap[id := s])
    case StartProviding => q.(startProviding := q.startProviding[id := s])
    case GetProviders => q.(listProviders := q.listProviders[id := PendingListProviders(s, {})])
  }

  function RemoveQuery(q: Queries, kind: QueryKind, id: QueryId): Queries {
    match kind
    case Bootstrap => q.(bootstrap := q.bootstrap - {id})
    case StartProviding => q.(startProviding := q.startProviding - {id})
    case GetProviders => q.(listProviders := q.listProviders - {id})
  }

  /** The sender waiting for a ticket. */
  function Pending(st: State, t: Ticket): Option<Sender> {
    match t
    case Query(kind, id) => QuerySender(st.queries, kind, id)
    case Request(p, id) => Get(RequestsOf(st.requests, p), id)
  }

  function Insert(st: State, t: Ticket, s: Sender): State {
    match t
    case Query(kind, id) => st.(queries := InsertQuery(st.queries, kind, id, s))
    case Request(p, id) => st.(requests := WithRequests(st.requests, p, RequestsOf(st.requests, p)[id := s]))
  }

  function Remove(st: State, t: Ticket): State {
    match t
    case Query(kind, id) => st.(queries := RemoveQuery(st.queries, kind, id))
    case Request(p, id) => st.(requests := WithRequests(st.requests, p, RequestsOf(st.requests, p) - {id}))
  }

  /** `HashMap::insert`: a sender already stored under the id is dropped. */
  function Enter(st: State, t: Ticket, s: Sender): Outcome {
    Continues(Insert(st, t, s), [], if Pending(st, t).Some? then [Pending(st, t).value] else [])
  }

  /** `remove(..).expect(..).send(..)`. */
  function Complete(st: State, t: Ticket, content: Content): Outcome {
    if Pending(st, t).None? then Panics
    else Continues(Remove(st, t), [Reply(Pending(st, t).value, content)], [])
  }

  // ---------------------------------------------------------------------- handlers

  function HandleCommand(st: State, c: Command): Outcome {
    match c
    case AddProbe(peer, s) =>
      if peer in st.pendingDial then Continues(st, [], [s])
      else Continues(st.(pendingDial := st.pendingDial[peer := s]), [], [])
    case Dial(peer, s, dialed) =>
      if peer in st.pendingDial then Continues(st, [], [s])
      else if dialed then Continues(st.(pendingDial := st.pendingDial[peer := s]), [], [])
      else Continues(st, [Reply(s, Failed)], [])
    case BootstrapDht(s, started) =>
      if st.bootstrapped then Continues(st, [], [s])
      else if started.Some? then Enter(st.(bootstrapped := true), Query(Bootstrap, started.value), s)
      else Continues(st, [Reply(s, Failed)], [])
    case Provide(s, started) =>
      if started.Some? then Enter(st, Query(StartProviding, started.value), s) else Panics
    case ListProviders(s, id) => Enter(st, Query(GetProviders, id), s)
    case SendRequest(p, s, id) => Enter(st, Request(p, id), s)
    case AnsweredAtOnce(s, reply) => Continues(st, [Reply(s, reply)], [])
    case Status(s, waiting, reply) => if waiting then Continues(st, [Reply(s, reply)], []) else Panics
    case Respond(_, channelOpen) => if channelOpen then Continues(st, [], []) else Panics
  }

  function HandleDial(st: State, peer: PeerId, content: Content): Outcome {
    if peer in st.pendingDial then
      Continues(st.(pendingDial := st.pendingDial - {peer}), [Reply(st.pendingDial[peer], content)], [])
    else Continues(st, [], [])
  }

  function AddProviders(q: Queries, id: QueryId, providers: set<PeerId>): Queries
    requires id in q.listProviders
  {
    var entry := q.listProviders[id];
    q.(listProviders := q.listProviders[id := entry.(providers := entry.providers + providers)])
  }

  function HandleEvent(st: State, e: Event): Outcome {
    match e
    case ProvidingStarted(id) => Complete(st, Query(StartProviding, id), Done)
    case FoundProviders(id, providers) =>
      if id !in st.queries.listProviders then Panics
      else
        Continues(st.(queries := AddProviders(st.queries, id, providers)), [], [])
    case ProvidersFinished(id) =>
      if id !in st.queries.listProviders then Panics
      else Complete(st, Query(GetProviders, id), Providers(st.queries.listProviders[id].providers))
    case ProvidersFailed(_) => Continues(st, [], [])
    case BootstrapProgressed(id, remaining) =>
      if remaining == 0 then Complete(st, Query(Bootstrap, id), Done) else Continues(st, [], [])
    case BootstrapFailed(id) => Complete(st, Query(Bootstrap, id), Failed)
    case Response(p, id, payload) => Complete(st, Request(p, id), Answer(payload))
    case OutboundFailure(p, id) => Complete(st, Request(p, id), Failed)
    case ConnectionEstablished(peer, dialer) =>
      if dialer then HandleDial(st, peer, Done) else Continues(st, [], [])
    case OutgoingConnectionError(peer) =>
      if peer.Some? then HandleDial(st, peer.value, Failed) else Continues(st, [], [])
    case Ignored => Continues(st, [], [])
  }

  datatype Action = Issue(command: Command) | Observe(event: Event)

  function Handle(st: State, a: Action): Outcome {
    match a
    case Issue(c) => HandleCommand(st, c)
    case Observe(e) => HandleEvent(st, e)
  }

  // ------------------------------------------------------------ the libp2p contract

  /** `open`: operations that may still be reported, with who asked; `used`: every ticket ever issued. */
  datatype Env = Env(open: map<Ticket, Sender>, used: set<Ticket>)

  /** The ticket libp2p hands out while a command is handled. */
  function Issued(st: State, a: Action): Option<Ticket> {
    match a
    case Issue(BootstrapDht(_, Some(id))) => if st.bootstrapped then None else Some(Query(Bootstrap, id))
    case Issue(Provide(_, Some(id))) => Some(Query(StartProviding, id))
    case Issue(ListProviders(_, id)) => Some(Query(GetProviders, id))
    case Issue(SendRequest(p, _, id)) => Some(Request(p, id))
    case _ => None
  }

  /** The ticket an event is about. */
  function About(a: Action): Option<Ticket> {
    match a
    case Observe(ProvidingStarted(id)) => Some(Query(StartProviding, id))
    case Observe(FoundProviders(id, _)) => Some(Query(GetProviders, id))
    case Observe(ProvidersFinished(id)) => Some(Query(GetProviders, id))
    case Observe(ProvidersFailed(id)) => Some(Query(GetProviders, id))
    case Observe(BootstrapProgressed(id, _)) => Some(Query(Bootstrap, id))
    case Observe(BootstrapFailed(id)) => Some(Query(Bootstrap, id))
    case Observe(Response(p, id, _)) => Some(Request(p, id))
    case Observe(OutboundFailure(p, id)) => Some(Request(p, id))
    case _ => None
  }

  /** The event leaves its query running. */
  predicate KeepsOpen(a: Action) {
    a.Observe? && (a.event.FoundProviders? || (a.event.BootstrapProgressed? && a.event.remaining > 0))
  }

  /** No query id is reused, whatever its kind, and no request id within its protocol. */
  ghost predicate FreshTicket(env: Env, t: Ticket) {
    match t
    case Query(_, id) => forall k :: Query(k, id) !in env.used
    case Request(_, _) => t !in env.used
  }

  ghost predicate Permitted(st: State, env: Env, a: Action) {
    && (Issued(st, a).Some? ==> FreshTicket(env, Issued(st, a).value))
    && (About(a).Some? ==> About(a).value in env.open)
    && (a.Issue? && a.command.Provide? ==> a.command.started.Some?)
    && (a.Issue? && a.command.Status? ==> a.command.waiting)
    && (a.Issue? && a.command.Respond? ==> a.command.channelOpen)
  }

  function SenderOf(a: Action): Option<Sender> {
    match a
    case Issue(Respond(_, _)) => None
    case Issue(c) => Some(c.sender)
    case Observe(_) => None
  }

  ghost function NextEnv(st: State, env: Env, a: Action): Env {
    if Issued(st, a).Some? then
      var t := Issued(st, a).value;
      Env(env.open[t := SenderOf(a).value], env.used + {t})
    else if About(a).Some? && !KeepsOpen(a) then env.(open := env.open - {About(a).value})
    else env
  }

  /** Everything open is pending for the sender that asked, and every pending id was issued. */
  ghost predicate Correlated(st: State, env: Env) {
    && (forall t :: t in env.open ==> t in env.used && Pending(st, t) == Some(env.open[t]))
    && (forall t :: Pending(st, t).Some? ==> t in env.used)
  }

  lemma RequestsAfterWith(r: Requests, p: Protocol, m: map<RequestId, Sender>, q: Protocol)
    ensures RequestsOf(WithRequests(r, p, m), q) == if q == p then m else RequestsOf(r, q)
  {
  }

  lemma QueryAfterInsert(q: Queries, kind: QueryKind, id: QueryId, s: Sender, k: QueryKind, i: QueryId)
    ensures QuerySender(InsertQuery(q, kind, id, s), k, i) ==
            if k == kind && i == id then Some(s) else QuerySender(q, k, i)
  {
  }

  lemma QueryAfterRemove(q: Queries, kind: QueryKind, id: QueryId, k: QueryKind, i: QueryId)
    ensures QuerySender(RemoveQuery(q, kind, id), k, i) ==
            if k == kind && i == id then None else QuerySender(q, k, i)
  {
  }

  lemma PendingAfterInsert(st: State, t: Ticket, s: Sender, u: Ticket)
    ensures Pending(Insert(st, t, s), u) == if u == t then Some(s) else Pending(st, u)
  {
    hide RequestsOf, WithRequests, QuerySender, InsertQuery;
    match (t, u) {
      case (Request(p, id), Request(q, _)) =>
        RequestsAfterWith(st.requests, p, RequestsOf(st.requests, p)[id := s], q);
      case (Query(kind, id), Query(k, i)) => QueryAfterInsert(st.queries, kind, id, s, k, i);
      case _ =>
    }
  }

  lemma PendingAfterRemove(st: State, t: Ticket, u: Ticket)
    ensures Pending(Remove(st, t), u) == if u == t then None else Pending(st, u)
  {
    hide RequestsOf, WithRequests, QuerySender, RemoveQuery;
    match (t, u) {
      case (Request(p, id), Request(q, _)) =>
        RequestsAfterWith(st.requests, p, RequestsOf(st.requests, p) - {id}, q);
      case (Query(kind, id), Query(k, i)) => QueryAfterRemove(st.queries, kind, id, k, i);
      case _ =>
    }
  }

  lemma EnterKeeps(st: State, env: Env, t: Ticket, s: Sender)
    requires Correlated(st, env) && FreshTicket(env, t)
    ensures Enter(st, t, s) == Continues(Insert(st, t, s), [], [])
    ensures Correlated(Insert(st, t, s), Env(env.open[t := s], env.used + {t}))
  {
    assert t !in env.used;
    var st', env' := Insert(st, t, s), Env(env.open[t := s], env.used + {t});
    forall u ensures Pending(st', u) == if u == t then Some(s) else Pending(st, u) {
      PendingAfterInsert(st, t, s, u);
    }
  }

  lemma CompleteKeeps(st: State, env: Env, t: Ticket, content: Content)
    requires Correlated(st, env) && t in env.open
    ensures Complete(st, t, content) == Continues(Remove(st, t), [Reply(env.open[t], content)], [])
    ensures Correlated(Remove(st, t), env.(open := env.open - {t}))
  {
    var st', env' := Remove(st, t), env.(open := env.open - {t});
    forall u ensures Pending(st', u) == if u == t then None else Pending(st, u) {
      PendingAfterRemove(st, t, u);
    }
  }

  /** The pending operations other than dials are the same. */
  ghost predicate SamePending(st: State, st': State) {
    forall t :: Pending(st', t) == Pending(st, t)
  }

  lemma SameKeeps(st: State, st': State, env: Env, open: map<Ticket, Sender>)
    requires Correlated(st, env) && SamePending(st, st') && forall t :: t in open ==> t in env.open && open[t] == env.open[t]
    ensures Correlated(st', env.(open := open))
  {
  }

  lemma CommandKeeps(st: State, env: Env, c: Command)
    requires Correlated(st, env) && Permitted(st, env, Issue(c))
    ensures var o := HandleCommand(st, c);
      o.Continues? && Correlated(o.st, NextEnv(st, env, Issue(c)))
  {
    var t := Issued(st, Issue(c));
    var o := HandleCommand(st, c);
    if t.Some? {
      if c.BootstrapDht? {
        SameKeeps(st, st.(bootstrapped := true), env, env.open);
        EnterKeeps(st.(bootstrapped := true), env, t.value, c.sender);
      } else {
        EnterKeeps(st, env, t.value, c.sender);
      }
    } else {
      assert SamePending(st, o.st);
      SameKeeps(st, o.st, env, env.open);
    }
  }

  lemma EventKeeps(st: State, env: Env, e: Event)
    requires Correlated(st, env) && Permitted(st, env, Observe(e))
    ensures var o := HandleEvent(st, e);
      o.Continues? && Correlated(o.st, NextEnv(st, env, Observe(e)))
  {
    var a := Observe(e);
    if About(a).None? || KeepsOpen(a) || e.ProvidersFailed? {
      var o := HandleEvent(st, e);
      if e.FoundProviders? {
        assert Pending(st, Query(GetProviders, e.id)).Some?;
      }
      assert SamePending(st, o.st);
      SameKeeps(st, o.st, env, NextEnv(st, env, a).open);
    } else {
      var t := About(a).value;
      assert Pending(st, t).Some?;
      CompleteKeeps(st, env, t, ContentOf(st, e));
    }
  }

  /** What a completing event sends. */
  ghost function ContentOf(st: State, e: Event): Content {
    if e.BootstrapFailed? || e.OutboundFailure? || e.OutgoingConnectionError? then Failed
    else if e.ProvidersFinished? && e.id in st.queries.listProviders then Providers(st.queries.listProviders[e.id].providers)
    else if e.Response? then Answer(e.payload)
    else Done
  }

  /**
   An event that completes an operation sends exactly one reply, to the sender
   that asked for that operation.
   */
  lemma CompletionAnswersIssuer(st: State, env: Env, e: Event)
    requires Correlated(st, env) && Permitted(st, env, Observe(e))
    requires About(Observe(e)).Some? && !KeepsOpen(Observe(e)) && !e.ProvidersFailed?
    ensures var o := HandleEvent(st, e);
      o.Continues? && o.sent == [Reply(env.open[About(Observe(e)).value], ContentOf(st, e))]
  {
    var t := About(Observe(e)).value;
    assert Pending(st, t).Some?;
    CompleteKeeps(st, env, t, ContentOf(st, e));
  }

  /** Events whose handler looks their id up with `expect`. */
  ghost predicate Expects(e: Event) {
    About(Observe(e)).Some? && !e.ProvidersFailed? && !(e.BootstrapProgressed? && e.remaining > 0)
  }

  /** The contract is needed: any report on an operation that was already completed makes an `expect` fail. */
  lemma SecondReportPanics(st: State, env: Env, e: Event, again: Event)
    requires Correlated(st, env) && Permitted(st, env, Observe(e))
    requires Expects(e) && !e.FoundProviders?
    requires Expects(again) && About(Observe(again)) == About(Observe(e))
    ensures HandleEvent(st, e).Continues? && HandleEvent(HandleEvent(st, e).st, again).Panics?
  {
    hide Remove, RequestsOf, Correlated;
    var t := About(Observe(e)).value;
    CompleteKeeps(st, env, t, ContentOf(st, e));
    EventKeeps(st, env, e);
    PendingAfterRemove(st, t, t);
  }

  /** Senders are dropped only by a second dial or probe to a pending peer and by a repeated bootstrap. */
  lemma DropsOnlyDuplicates(st: State, env: Env, a: Action)
    requires Correlated(st, env) && Permitted(st, env, a)
    ensures var o := Handle(st, a);
      && o.Continues?
      && (o.dropped != [] <==>
            && a.Issue?
            && (|| ((a.command.AddProbe? || a.command.Dial?) && a.command.peer in st.pendingDial)
                || (a.command.BootstrapDht? && st.bootstrapped)))
      && (o.dropped != [] ==> o.dropped == [SenderOf(a).value] && o.sent == [] && o.st == st)
  {
    match a
    case Issue(c) =>
      CommandKeeps(st, env, c);
      if Issued(st, a).Some? {
        var st' := if c.BootstrapDht? then st.(bootstrapped := true) else st;
        SameKeeps(st, st', env, env.open);
        EnterKeeps(st', env, Issued(st, a).value, c.sender);
      }
    case Observe(e) => EventKeeps(st, env, e);
  }

  // ------------------------------------------------------------------ conservation

  ghost function One(s: Sender): multiset<Sender> { multiset{s} }

  ghost function OneOf(entry: PendingListProviders): multiset<Sender> { multiset{entry.sender} }

  /** How often a sender is held in the nine maps. */
  ghost function Held(st: State, s: Sender): nat {
    Total(st.pendingDial, One)[s] + HeldByQueries(st.queries, s) + HeldByRequests(st.requests, s)
  }

  ghost function HeldByQueries(q: Queries, s: Sender): nat {
    Total(q.bootstrap, One)[s] + Total(q.startProviding, One)[s] + Total(q.listProviders, OneOf)[s]
  }

  ghost function HeldByRequests(r: Requests, s: Sender): nat {
    Total(r.artifact, One)[s] + Total(r.build, One)[s] + Total(r.idleMetric, One)[s]
    + Total(r.blockchain, One)[s] + Total(r.buildStatus, One)[s]
  }

  ghost function Is(s: Sender, x: Sender): nat { if s == x then 1 else 0 }

  lemma WithRequestsCounts(r: Requests, p: Protocol, m: map<RequestId, Sender>, s: Sender)
    ensures HeldByRequests(WithRequests(r, p, m), s) + Total(RequestsOf(r, p), One)[s] ==
            HeldByRequests(r, s) + Total(m, One)[s]
  {
    hide Total;
    match p {
      case Artifact =>
      case Build =>
      case IdleMetric =>
      case Blockchain =>
      case BuildStatus =>
    }
  }

  lemma InsertQueryCounts(q: Queries, kind: QueryKind, id: QueryId, x: Sender, s: Sender)
    requires QuerySender(q, kind, id).None?
    ensures HeldByQueries(InsertQuery(q, kind, id, x), s) == HeldByQueries(q, s) + Is(s, x)
  {
    hide Total;
    match kind {
      case Bootstrap => TotalInsert(q.bootstrap, One, id, x);
      case StartProviding => TotalInsert(q.startProviding, One, id, x);
      case GetProviders => TotalInsert(q.listProviders, OneOf, id, PendingListProviders(x, {}));
    }
  }

  lemma RemoveQueryCounts(q: Queries, kind: QueryKind, id: QueryId, s: Sender)
    requires QuerySender(q, kind, id).Some?
    ensures HeldByQueries(q, s) == HeldByQueries(RemoveQuery(q, kind, id), s) + Is(s, QuerySender(q, kind, id).value)
  {
    hide Total;
    match kind {
      case Bootstrap => TotalRemove(q.bootstrap, One, id);
      case StartProviding => TotalRemove(q.startProviding, One, id);
      case GetProviders => TotalRemove(q.listProviders, OneOf, id);
    }
  }

  lemma InsertCounts(st: State, t: Ticket, x: Sender, s: Sender)
    requires Pending(st, t).None?
    ensures Held(Insert(st, t, x), s) == Held(st, s) + Is(s, x)
  {
    hide Total, RequestsOf, WithRequests, InsertQuery, QuerySender, HeldByQueries, HeldByRequests;
    match t {
      case Query(kind, id) => InsertQueryCounts(st.queries, kind, id, x, s);
      case Request(p, id) =>
        TotalInsert(RequestsOf(st.requests, p), One, id, x);
        WithRequestsCounts(st.requests, p, RequestsOf(st.requests, p)[id := x], s);
    }
  }

  lemma RemoveCounts(st: State, t: Ticket, x: Sender, s: Sender)
    requires Pending(st, t) == Some(x)
    ensures Held(st, s) == Held(Remove(st, t), s) + Is(s, x)
  {
    hide Total, RequestsOf, WithRequests, RemoveQuery, QuerySender, HeldByQueries, HeldByRequests;
    match t {
      case Query(kind, id) => RemoveQueryCounts(st.queries, kind, id, s);
      case Request(p, id) =>
        TotalRemove(RequestsOf(st.requests, p), One, id);
        WithRequestsCounts(st.requests, p, RequestsOf(st.requests, p) - {id}, s);
    }
  }

  /** A sender is counted exactly when it waits for a peer or for a ticket. */
  lemma HeldIff(st: State, s: Sender)
    ensures Held(st, s) > 0 <==>
            || (exists p :: p in st.pendingDial && st.pendingDial[p] == s)
            || (exists t :: Pending(st, t) == Some(s))
  {
    hide Total;
    TotalMember(st.pendingDial, One, s);
    HeldByQueriesIff(st.queries, s);
    HeldByRequestsIff(st.requests, s);
    hide HeldByQueries, HeldByRequests;
    if k, id :| QuerySender(st.queries, k, id) == Some(s) {
      assert Pending(st, Query(k, id)) == Some(s);
    }
    if p, id :| Get(RequestsOf(st.requests, p), id) == Some(s) {
      assert Pending(st, Request(p, id)) == Some(s);
    }
  }

  lemma HeldByQueriesIff(q: Queries, s: Sender)
    ensures HeldByQueries(q, s) > 0 <==> exists k, id :: QuerySender(q, k, id) == Some(s)
  {
    hide Total;
    InMap(q.bootstrap, s);
    InMap(q.startProviding, s);
    TotalMember(q.listProviders, OneOf, s);
    if id :| Get(q.bootstrap, id) == Some(s) { assert QuerySender(q, Bootstrap, id) == Some(s); }
    if id :| Get(q.startProviding, id) == Some(s) { assert QuerySender(q, StartProviding, id) == Some(s); }
    if id :| id in q.listProviders && s in OneOf(q.listProviders[id]) {
      assert QuerySender(q, GetProviders, id) == Some(s);
    }
  }

  lemma InMap(m: map<nat, Sender>, s: Sender)
    ensures Total(m, One)[s] > 0 <==> exists id :: Get(m, id) == Some(s)
  {
    TotalMember(m, One, s);
    hide Total;
    if id :| Get(m, id) == Some(s) { assert id in m && s in One(m[id]); }
    if id :| id in m && s in One(m[id]) { assert Get(m, id) == Some(s); }
  }

  lemma HeldByRequestsIff(r: Requests, s: Sender)
    ensures HeldByRequests(r, s) > 0 <==> exists p, id :: Get(RequestsOf(r, p), id) == Some(s)
  {
    hide Total;
    forall p ensures Total(RequestsOf(r, p), One)[s] > 0 <==> exists id :: Get(RequestsOf(r, p), id) == Some(s) {
      InMap(RequestsOf(r, p), s);
    }
    InSomeRequest(r, s);
    hide HeldByRequests, RequestsOf, Get;
  }

  lemma InSomeRequest(r: Requests, s: Sender)
    ensures HeldByRequests(r, s) > 0 <==> exists p :: Total(RequestsOf(r, p), One)[s] > 0
  {
    hide Total;
    if p :| Total(RequestsOf(r, p), One)[s] > 0 {
      PartOfHeld(r, s, p);
    }
    if forall p :: Total(RequestsOf(r, p), One)[s] == 0 {
      assert RequestsOf(r, Artifact) == r.artifact && RequestsOf(r, Build) == r.build;
      assert RequestsOf(r, IdleMetric) == r.idleMetric && RequestsOf(r, Blockchain) == r.blockchain;
      assert RequestsOf(r, BuildStatus) == r.buildStatus;
    }
  }

  lemma PartOfHeld(r: Requests, s: Sender, p: Protocol)
    ensures Total(RequestsOf(r, p), One)[s] <= HeldByRequests(r, s)
  {
    hide Total;
    match p {
      case Artifact =>
      case Build =>
      case IdleMetric =>
      case Blockchain =>
      case BuildStatus =>
    }
  }

  ghost function CountSent(sent: seq<Reply>, s: Sender): nat {
    if sent == [] then 0 else Is(s, sent[0].sender) + CountSent(sent[1..], s)
  }

  ghost function CountDropped(dropped: seq<Sender>, s: Sender): nat {
    multiset(dropped)[s]
  }

  ghost function CountSubmitted(a: Action, s: Sender): nat {
    if SenderOf(a).Some? then Is(s, SenderOf(a).value) else 0
  }

  lemma DialCounts(st: State, peer: PeerId, x: Sender, s: Sender)
    ensures peer !in st.pendingDial ==> Held(st.(pendingDial := st.pendingDial[peer := x]), s) == Held(st, s) + Is(s, x)
    ensures peer in st.pendingDial ==>
      Held(st, s) == Held(st.(pendingDial := st.pendingDial - {peer}), s) + Is(s, st.pendingDial[peer])
  {
    hide Total;
    if peer in st.pendingDial {
      TotalRemove(st.pendingDial, One, peer);
    } else {
      TotalInsert(st.pendingDial, One, peer, x);
    }
  }

  lemma FoundCounts(st: State, id: QueryId, providers: set<PeerId>, s: Sender)
    requires id in st.queries.listProviders
    ensures Held(st.(queries := AddProviders(st.queries, id, providers)), s) == Held(st, s)
  {
    hide Total, HeldByRequests;
    var entry := AddProviders(st.queries, id, providers).listProviders[id];
    TotalReplaceSame<QueryId, PendingListProviders>(st.queries.listProviders, OneOf, id, entry);
  }

  lemma CompleteCounts(st: State, t: Ticket, content: Content, s: Sender)
    requires Pending(st, t).Some?
    ensures var o := Complete(st, t, content);
      o.Continues? && o.dropped == [] && Held(st, s) == Held(o.st, s) + CountSent(o.sent, s)
  {
    hide Held;
    RemoveCounts(st, t, Pending(st, t).value, s);
  }

  /** No step creates, loses or doubles a sender: it is held, answered or dropped. */
  lemma StepConserves(st: State, env: Env, a: Action, s: Sender)
    requires Correlated(st, env) && Permitted(st, env, a)
    ensures var o := Handle(st, a);
      && o.Continues?
      && Held(st, s) + CountSubmitted(a, s) == Held(o.st, s) + CountSent(o.sent, s) + CountDropped(o.dropped, s)
  {
    match a
    case Issue(c) => CommandConserves(st, env, c, s);
    case Observe(e) => EventConserves(st, env, e, s);
  }

  lemma CommandConserves(st: State, env: Env, c: Command, s: Sender)
    requires Correlated(st, env) && Permitted(st, env, Issue(c))
    ensures var o := HandleCommand(st, c);
      && o.Continues?
      && Held(st, s) + CountSubmitted(Issue(c), s) == Held(o.st, s) + CountSent(o.sent, s) + CountDropped(o.dropped, s)
  {
    var t := Issued(st, Issue(c));
    if t.Some? {
      hide Held, Pending, Enter;
      if c.BootstrapDht? {
        BootstrapHeld(st, env, s);
        EnterCounts(st.(bootstrapped := true), env, t.value, c.sender, s);
      } else {
        EnterCounts(st, env, t.value, c.sender, s);
      }
    } else {
      hide Held, Correlated, Pending, Enter;
      if c.AddProbe? || c.Dial? {
        DialCounts(st, c.peer, c.sender, s);
      }
    }
  }

  lemma BootstrapHeld(st: State, env: Env, s: Sender)
    requires Correlated(st, env)
    ensures Correlated(st.(bootstrapped := true), env)
    ensures Held(st.(bootstrapped := true), s) == Held(st, s)
  {
    hide Total, HeldByQueries, HeldByRequests;
    SameKeeps(st, st.(bootstrapped := true), env, env.open);
  }

  lemma EnterCounts(st: State, env: Env, t: Ticket, x: Sender, s: Sender)
    requires Correlated(st, env) && FreshTicket(env, t)
    ensures var o := Enter(st, t, x);
      o.Continues? && o.sent == [] && o.dropped == [] && Held(o.st, s) == Held(st, s) + Is(s, x)
  {
    EnterKeeps(st, env, t, x);
    assert t !in env.used && Pending(st, t).None?;
    hide Held, Insert;
    InsertCounts(st, t, x, s);
  }

  lemma EventConserves(st: State, env: Env, e: Event, s: Sender)
    requires Correlated(st, env) && Permitted(st, env, Observe(e))
    ensures var o := HandleEvent(st, e);
      && o.Continues?
      && Held(st, s) == Held(o.st, s) + CountSent(o.sent, s) + CountDropped(o.dropped, s)
  {
    hide Held;
    var a := Observe(e);
    if About(a).Some? {
      assert Pending(st, About(a).value).Some?;
    }
    if e.FoundProviders? {
      FoundCounts(st, e.id, e.providers, s);
    } else if About(a).Some? && !KeepsOpen(a) && !e.ProvidersFailed? {
      CompleteCounts(st, About(a).value, ContentOf(st, e), s);
    } else if e.ConnectionEstablished? {
      DialCounts(st, e.peer, 0, s);
    } else if e.OutgoingConnectionError? && e.failed.Some? {
      DialCounts(st, e.failed.value, 0, s);
    }
  }

  // --------------------------------------------------------------------- whole runs

  /** A state of the loop and of libp2p. */
  datatype Config = Config(st: State, env: Env)

  ghost function After(trace: seq<Action>): Config {
    if trace == [] then Config(INITIAL, Env(map[], {}))
    else
      var before, a := After(trace[..|trace| - 1]), trace[|trace| - 1];
      var o := Handle(before.st, a);
      Config(if o.Continues? then o.st else before.st, NextEnv(before.st, before.env, a))
  }

  ghost function LastOutcome(trace: seq<Action>): Outcome
    requires trace != []
  {
    Handle(After(trace[..|trace| - 1]).st, trace[|trace| - 1])
  }

  /** Every action respects the contract when it happens. */
  ghost predicate LegalRun(trace: seq<Action>) {
    trace == [] ||
    var before := After(trace[..|trace| - 1]);
    LegalRun(trace[..|trace| - 1]) && Permitted(before.st, before.env, trace[|trace| - 1])
  }

  ghost function Submitted(trace: seq<Action>, s: Sender): nat {
    if trace == [] then 0 else Submitted(trace[..|trace| - 1], s) + CountSubmitted(trace[|trace| - 1], s)
  }

  ghost function Answered(trace: seq<Action>, s: Sender): nat {
    if trace == [] then 0
    else
      var o := LastOutcome(trace);
      Answered(trace[..|trace| - 1], s) + if o.Continues? then CountSent(o.sent, s) else 0
  }

  ghost function Dropped(trace: seq<Action>, s: Sender): nat {
    if trace == [] then 0
    else
      var o := LastOutcome(trace);
      Dropped(trace[..|trace| - 1], s) + if o.Continues? then CountDropped(o.dropped, s) else 0
  }

  lemma {:induction false} RunCorrelated(trace: seq<Action>)
    requires LegalRun(trace)
    ensures Correlated(After(trace).st, After(trace).env)
  {
    if trace != [] {
      var n := |trace| - 1;
      RunCorrelated(trace[..n]);
      var before := After(trace[..n]);
      match trace[n]
      case Issue(c) => CommandKeeps(before.st, before.env, c);
      case Observe(e) => EventKeeps(before.st, before.env, e);
    }
  }

  /** No `expect` on a pending map ever fails. */
  lemma NoExpectFails(trace: seq<Action>)
    requires trace != [] && LegalRun(trace)
    ensures LastOutcome(trace).Continues?
  {
    var n := |trace| - 1;
    RunCorrelated(trace[..n]);
    var before := After(trace[..n]);
    DropsOnlyDuplicates(before.st, before.env, trace[n]);
  }

  /**
   Reply conservation over every interleaving: what was submitted is what is
   pending, answered or dropped.  A sender submitted once is therefore in
   exactly one of the three, and answered at most once.
   */
  lemma {:induction false} ReplyConservation(trace: seq<Action>, s: Sender)
    requires LegalRun(trace)
    ensures Submitted(trace, s) == Held(After(trace).st, s) + Answered(trace, s) + Dropped(trace, s)
  {
    if trace == [] {
      InitialHoldsNothing(s);
    } else {
      hide Held, Handle, NextEnv, Permitted;
      var n := |trace| - 1;
      ReplyConservation(trace[..n], s);
      RunCorrelated(trace[..n]);
      var before := After(trace[..n]);
      StepConserves(before.st, before.env, trace[n], s);
    }
  }

  lemma InitialHoldsNothing(s: Sender)
    ensures Held(INITIAL, s) == 0
  {
  }

  // ------------------------------------------------------------ provider aggregation

  /** The union of the provider sets reported for a query. */
  ghost function FoundFor(trace: seq<Action>, id: QueryId): set<PeerId> {
    if trace == [] then {}
    else
      var a := trace[|trace| - 1];
      FoundFor(trace[..|trace| - 1], id) +
      if a.Observe? && a.event.FoundProviders? && a.event.id == id then a.event.providers else {}
  }

  ghost predicate Aggregated(trace: seq<Action>) {
    var c := After(trace);
    && (forall id :: id in c.st.queries.listProviders ==> c.st.queries.listProviders[id].providers == FoundFor(trace, id))
    && (forall id :: FoundFor(trace, id) != {} ==> Query(GetProviders, id) in c.env.used)
  }

  lemma UsedGrows(st: State, env: Env, a: Action)
    ensures env.used <= NextEnv(st, env, a).used
  {
  }

  /** What one step does to the entry of a provider query. */
  lemma ListStep(st: State, env: Env, a: Action, id: QueryId)
    requires Correlated(st, env) && Permitted(st, env, a)
    ensures var o := Handle(st, a);
      && o.Continues?
      && (id in o.st.queries.listProviders ==>
            || (Issued(st, a) == Some(Query(GetProviders, id)) && o.st.queries.listProviders[id].providers == {})
            || (id in st.queries.listProviders
                && o.st.queries.listProviders[id].providers == st.queries.listProviders[id].providers +
                   if a.Observe? && a.event.FoundProviders? && a.event.id == id then a.event.providers else {}))
  {
    DropsOnlyDuplicates(st, env, a);
    if a.Observe? && a.event.FoundProviders? {
      assert Pending(st, About(a).value).Some?;
    }
  }

  lemma {:induction false} RunAggregated(trace: seq<Action>)
    requires LegalRun(trace)
    ensures Aggregated(trace)
  {
    if trace != [] {
      var n := |trace| - 1;
      var a, before := trace[n], After(trace[..n]);
      RunAggregated(trace[..n]);
      RunCorrelated(trace[..n]);
      UsedGrows(before.st, before.env, a);
      forall id ensures
        && (id in After(trace).st.queries.listProviders ==>
              After(trace).st.queries.listProviders[id].providers == FoundFor(trace, id))
        && (FoundFor(trace, id) != {} ==> Query(GetProviders, id) in After(trace).env.used)
      {
        AggregatedStep(trace, id);
      }
    }
  }

  lemma AggregatedStep(trace: seq<Action>, id: QueryId)
    requires trace != [] && LegalRun(trace) && Aggregated(trace[..|trace| - 1])
    requires var before := After(trace[..|trace| - 1]); Correlated(before.st, before.env)
    ensures id in After(trace).st.queries.listProviders ==>
      After(trace).st.queries.listProviders[id].providers == FoundFor(trace, id)
    ensures FoundFor(trace, id) != {} ==> Query(GetProviders, id) in After(trace).env.used
  {
    var n := |trace| - 1;
    var a, before := trace[n], After(trace[..n]);
    ListStep(before.st, before.env, a, id);
    UsedGrows(before.st, before.env, a);
    if FoundFor(trace[..n], id) == {} && FoundFor(trace, id) != {} {
      assert About(a) == Some(Query(GetProviders, id));
    }
  }

  /**
   Provider aggregation: when a provider query ends, its caller gets exactly
   the union of the sets reported for its own query, however many queries run.
   */
  lemma ProviderAggregation(trace: seq<Action>, id: QueryId)
    requires LegalRun(trace + [Observe(ProvidersFinished(id))])
    ensures LegalRun(trace) && Query(GetProviders, id) in After(trace).env.open
    ensures var caller := After(trace).env.open[Query(GetProviders, id)];
      var o := LastOutcome(trace + [Observe(ProvidersFinished(id))]);
      o.Continues? && o.sent == [Reply(caller, Providers(FoundFor(trace, id)))]
  {
    var longer := trace + [Observe(ProvidersFinished(id))];
    assert longer[..|longer| - 1] == trace;
    RunCorrelated(trace);
    RunAggregated(trace);
    var c := After(trace);
    CompletionAnswersIssuer(c.st, c.env, ProvidersFinished(id));
    assert Pending(c.st, Query(GetProviders, id)).Some?;
  }

  // -------------------------------------------------------------------- dials and replies

  /** Who waits for a connection to a peer: the first to dial or probe it since the last report on it. */
  ghost function WaitsFor(trace: seq<Action>, peer: PeerId): Option<Sender> {
    if trace == [] then None
    else
      var before := WaitsFor(trace[..|trace| - 1], peer);
      match trace[|trace| - 1]
      case Issue(AddProbe(p, s)) => if p == peer && before.None? then Some(s) else before
      case Issue(Dial(p, s, dialed)) => if p == peer && before.None? && dialed then Some(s) else before
      case Observe(ConnectionEstablished(p, dialer)) => if p == peer && dialer then None else before
      case Observe(OutgoingConnectionError(Some(p))) => if p == peer then None else before
      case _ => before
  }

  lemma {:induction false} DialsTracked(trace: seq<Action>, peer: PeerId)
    requires LegalRun(trace)
    ensures Get(After(trace).st.pendingDial, peer) == WaitsFor(trace, peer)
  {
    if trace != [] {
      var n := |trace| - 1;
      DialsTracked(trace[..n], peer);
      NoExpectFails(trace);
      hide Insert, Remove, Permitted, NextEnv, LegalRun;
      DialStep(After(trace[..n]).st, trace[n], peer);
    }
  }

  /** What one step does to the map of dials. */
  lemma DialStep(st: State, a: Action, peer: PeerId)
    requires Handle(st, a).Continues?
    ensures Get(Handle(st, a).st.pendingDial, peer) ==
      match a
      case Issue(AddProbe(p, s)) => if p == peer && peer !in st.pendingDial then Some(s) else Get(st.pendingDial, peer)
      case Issue(Dial(p, s, dialed)) => if p == peer && peer !in st.pendingDial && dialed then Some(s) else Get(st.pendingDial, peer)
      case Observe(ConnectionEstablished(p, dialer)) => if p == peer && dialer then None else Get(st.pendingDial, peer)
      case Observe(OutgoingConnectionError(Some(p))) => if p == peer then None else Get(st.pendingDial, peer)
      case _ => Get(st.pendingDial, peer)
  {
    if a.Issue? && Issued(st, a).Some? {
      InsertKeepsDials(st.(bootstrapped := st.bootstrapped || a.command.BootstrapDht?), Issued(st, a).value, a.command.sender);
    } else if a.Observe? && About(a).Some? {
      RemoveKeepsDials(st, About(a).value);
    }
    hide Insert, Remove, Pending;
  }

  lemma InsertKeepsDials(st: State, t: Ticket, s: Sender)
    ensures Insert(st, t, s).pendingDial == st.pendingDial && Insert(st, t, s).bootstrapped == st.bootstrapped
  {
  }

  lemma RemoveKeepsDials(st: State, t: Ticket)
    ensures Remove(st, t).pendingDial == st.pendingDial && Remove(st, t).bootstrapped == st.bootstrapped
  {
  }

  /** The events that report on a connection to a peer, and what they mean to who dialed it. */
  ghost function DialReport(e: Event): Option<(PeerId, Content)> {
    match e
    case ConnectionEstablished(peer, true) => Some((peer, Done))
    case OutgoingConnectionError(Some(peer)) => Some((peer, Failed))
    case _ => None
  }

  /**
   Dials and probes over every legal run: a report on a peer answers exactly the
   sender that waits for it, `Done` for a connection and `Failed` for an error,
   and ends the wait for that peer alone; nobody waiting, nobody is answered.
   An inbound connection and an error without a peer answer nobody.
   */
  lemma DialAnswered(trace: seq<Action>, e: Event)
    requires LegalRun(trace) && (e.ConnectionEstablished? || e.OutgoingConnectionError?)
    ensures LegalRun(trace + [Observe(e)])
    ensures var o := LastOutcome(trace + [Observe(e)]);
      && o.Continues? && o.dropped == []
      && (DialReport(e).None? ==> o.sent == [] && o.st == After(trace).st)
      && (DialReport(e).Some? ==>
            var (peer, content) := DialReport(e).value;
            && o.sent == (if WaitsFor(trace, peer).Some? then [Reply(WaitsFor(trace, peer).value, content)] else [])
            && o.st == After(trace).st.(pendingDial := After(trace).st.pendingDial - {peer}))
  {
    var longer := trace + [Observe(e)];
    assert longer[..|longer| - 1] == trace;
    var st := After(trace).st;
    hide After, WaitsFor;
    if DialReport(e).Some? {
      var peer := DialReport(e).value.0;
      DialsTracked(trace, peer);
      if peer !in st.pendingDial {
        assert st.pendingDial - {peer} == st.pendingDial;
      }
    }
  }

  /** What a command sends at once: a refusal, or the reply it carries. */
  lemma CommandReplies(st: State, env: Env, c: Command)
    requires Correlated(st, env) && Permitted(st, env, Issue(c))
    ensures var o := HandleCommand(st, c);
      && o.Continues?
      && o.sent ==
         if c.Dial? && c.peer !in st.pendingDial && !c.dialed then [Reply(c.sender, Failed)]
         else if c.BootstrapDht? && !st.bootstrapped && c.started.None? then [Reply(c.sender, Failed)]
         else if c.AnsweredAtOnce? || c.Status? then [Reply(c.sender, c.reply)]
         else []
  {
    CommandKeeps(st, env, c);
  }

  /** The commands that panic. */
  lemma CommandPanicsIff(st: State, c: Command)
    ensures HandleCommand(st, c).Panics? <==>
            (c.Provide? && c.started.None?) || (c.Status? && !c.waiting) || (c.Respond? && !c.channelOpen)
  {
  }

  /** A bootstrap was started earlier in the run. */
  ghost predicate BootstrapStarted(trace: seq<Action>) {
    exists i :: 0 <= i < |trace| && trace[i].Issue? && trace[i].command.BootstrapDht? && trace[i].command.started.Some?
  }

  /** The flag that makes a bootstrap a repeated one says exactly that. */
  lemma {:induction false} BootstrappedIff(trace: seq<Action>)
    requires LegalRun(trace)
    ensures After(trace).st.bootstrapped <==> BootstrapStarted(trace)
  {
    if trace != [] {
      var n := |trace| - 1;
      BootstrappedIff(trace[..n]);
      NoExpectFails(trace);
      var before, a := After(trace[..n]).st, trace[n];
      BootstrapStep(before, a);
      hide After, Handle, LegalRun;
      if BootstrapStarted(trace[..n]) {
        var i :| 0 <= i < n && trace[..n][i].Issue? && trace[..n][i].command.BootstrapDht? && trace[..n][i].command.started.Some?;
        assert trace[i] == trace[..n][i];
      }
      if BootstrapStarted(trace) && !(a.Issue? && a.command.BootstrapDht? && a.command.started.Some?) {
        var i :| 0 <= i < |trace| && trace[i].Issue? && trace[i].command.BootstrapDht? && trace[i].command.started.Some?;
        assert trace[..n][i] == trace[i];
      }
    }
  }

  lemma BootstrapStep(st: State, a: Action)
    requires Handle(st, a).Continues?
    ensures Handle(st, a).st.bootstrapped <==>
            st.bootstrapped || (a.Issue? && a.command.BootstrapDht? && a.command.started.Some?)
  {
    if a.Issue? && Issued(st, a).Some? {
      InsertKeepsDials(st.(bootstrapped := st.bootstrapped || a.command.BootstrapDht?), Issued(st, a).value, a.command.sender);
    } else if a.Observe? && About(a).Some? {
      RemoveKeepsDials(st, About(a).value);
    }
    hide Insert, Remove, Pending;
  }
}
