/** The retrying sends of a P2pGateway, together with the member detaching its process phases rely on.

    A send owns a one-shot callback. The callback travels with the send: it sits in the retry queue,
    or inside the closure of a request pending in the tracker of the DHT, the encoder or the
    transport, until it is called. Closures are modelled by the data they capture. Request ids are
    unique across the trackers, so one map holds all pending closures and the constructor says which
    tracker owns each. */
module Gateway {
  import opened Wrappers

  type Uri(==, !new)
  type Payload(==, !new)

  const SEND_RETRY_INTERVAL_MS := 20
  const SEND_RETRY_TIMEOUT_MS := 20000

  /** The members the gateway keeps in a `Detach` cell. */
  datatype Member = EndpointSelf | InnerTransport | MessageEncoding | InnerDht

  const ALL_MEMBERS := {EndpointSelf, InnerTransport, MessageEncoding, InnerDht}

  datatype Target = PartialHigh(uri: Uri) | FullLow(uri: Uri)

  /** `id` stands for the callback. */
  datatype Send = Send(id: nat, target: Target, payload: Payload, lastAttempt: int, expiresAt: int)

  datatype Pending =
    // in the tracker of the inner DHT
    | Resolve(send: Send) | ReplyIncoming(uri: Uri, payload: Payload) | SendAllPeers(payload: Payload)
    | RefreshThisPeer | ForwardDht
    // in the tracker of the message encoding actor
    | Encode(send: Send) | Decode(uri: Uri)
    // in the tracker of the inner transport
    | Transmit(send: Send) | Bind
    // in the tracker of the endpoint to the parent
    | FetchEntry

  function Owner(pending: Pending): Member {
    match pending
    case Encode(_) => MessageEncoding
    case Decode(_) => MessageEncoding
    case Transmit(_) => InnerTransport
    case Bind => InnerTransport
    case FetchEntry => EndpointSelf
    case _ => InnerDht
  }

  predicate HasSend(pending: Pending) {
    pending.Resolve? || pending.Encode? || pending.Transmit?
  }

  datatype Outcome = Success | Timeout
  datatype Call = Call(id: nat, outcome: Outcome, at: int)

  /** What has happened to one send so far; it changes nothing, it only remembers: when and with what it
      was started, the address it was given, the full address it was told, and when it was encoded. */
  datatype History = History(start: int, payload: Payload, given: Target, told: Option<Uri>, attempts: seq<int>)

  datatype Gw = Gw(
    attached: set<Member>,
    queue: seq<Send>,
    pending: map<nat, Pending>,
    calls: seq<Call>,
    nextRequest: nat,
    clock: int,
    history: seq<History>)

  /** One reading of the environment: how long until each of up to three clock readings, and whether
      the last channel send or callback of the operation reports an error. */
  datatype Env = Env(d0: nat, d1: nat, d2: nat, fails: bool)

  /** `Done` with its success flag, or a panic: dereferencing a detached member, or one of the
      handlers' own panics on unexpected input. */
  datatype Result = Done(g: Gw, ok: bool) | DetachPanic(member: Member) | HandlerPanic

  // ----- Sends -----

  function QueuePending(g: Gw, send: Send, env: Env): Result {
    var now := g.clock + env.d0;
    if send.expiresAt < now then Done(g.(clock := now, calls := g.calls + [Call(send.id, Timeout, now)]), !env.fails)
    else Done(g.(clock := now, queue := g.queue + [send]), true)
  }

  /** A request first bookmarks its closure and then sends, so a failing send still leaves the
      closure in the tracker. */
  function Request(g: Gw, pending: Pending, env: Env): Result {
    if Owner(pending) !in g.attached then DetachPanic(Owner(pending))
    else Done(g.(pending := g.pending[g.nextRequest := pending], nextRequest := g.nextRequest + 1), !env.fails)
  }

  function Publish(g: Gw, member: Member, env: Env): Result {
    if member !in g.attached then DetachPanic(member) else Done(g, !env.fails)
  }

  function SendPartial(g: Gw, send: Send, env: Env): Result {
    var now := g.clock + env.d0;
    Request(g.(clock := now), Resolve(send.(lastAttempt := now)), env)
  }

  /** Note the full address a send is told, and that it is encoded now. */
  function Told(g: Gw, id: nat, uri: Uri): Gw {
    if id >= |g.history| then g else g.(history := g.history[id := g.history[id].(told := Some(uri))])
  }

  function Attempted(g: Gw, id: nat): Gw {
    if id >= |g.history| then g
    else
      var h := g.history[id];
      g.(history := g.history[id := h.(attempts := h.attempts + [g.clock])])
  }

  /** Encode now, or, when the encoder is detached because it is running its own callbacks, wait for
      the next process call. */
  function SendFull(g: Gw, send: Send, env: Env): Result
  {
    var now := g.clock + env.d0;
    if MessageEncoding !in g.attached then
      QueuePending(g.(clock := now), send.(lastAttempt := now - 2 * SEND_RETRY_INTERVAL_MS), env.(d0 := env.d1))
    else EncodeNow(g, send, env)
  }

  function EncodeNow(g: Gw, send: Send, env: Env): Result {
    var now := g.clock + env.d0;
    Request(Attempted(g.(clock := now), send.id), Encode(send.(lastAttempt := now)), env)
  }

  function StartPartial(g: Gw, uri: Uri, payload: Payload, env: Env): Result {
    var now := g.clock + env.d0;
    var send := Send(|g.history|, PartialHigh(uri), payload, now, now + SEND_RETRY_TIMEOUT_MS);
    SendPartial(g.(clock := now, history := g.history + [History(now, payload, PartialHigh(uri), None, [])]), send,
                env.(d0 := env.d1, d1 := env.d2))
  }

  function StartFull(g: Gw, uri: Uri, payload: Payload, env: Env): Result {
    var now := g.clock + env.d0;
    var send := Send(|g.history|, FullLow(uri), payload, now, now + SEND_RETRY_TIMEOUT_MS);
    SendFull(g.(clock := now, history := g.history + [History(now, payload, FullLow(uri), Some(uri), [])]), send,
             env.(d0 := env.d1, d1 := env.d2))
  }

  function CheckDispatch(g: Gw, send: Send, env: Env): Result
  {
    var now := g.clock + env.d0;
    var g1, env1 := g.(clock := now), env.(d0 := env.d1, d1 := env.d2);
    if now - send.lastAttempt < SEND_RETRY_INTERVAL_MS then QueuePending(g1, send, env1)
    else if send.target.PartialHigh? then SendPartial(g1, send, env1)
    else SendFull(g1, send, env1)
  }

  function EnvAt(envs: seq<Env>, i: nat): Env {
    if i < |envs| then envs[i] else Env(0, 0, 0, false)
  }

  /** Dispatch every drained send; an error of one does not keep the others from being handled. */
  function DispatchAll(g: Gw, sends: seq<Send>, envs: seq<Env>, ok: bool): Result
    decreases |sends|
  {
    if sends == [] then Done(g, ok)
    else
      match CheckDispatch(g, sends[0], EnvAt(envs, 0))
      case Done(g1, ok1) => DispatchAll(g1, sends[1..], if envs == [] then [] else envs[1..], ok && ok1)
      case panic => panic
  }

  function ProcessPendingSends(g: Gw, envs: seq<Env>): Result
  {
    DispatchAll(g.(queue := []), g.queue, envs, true)
  }

  // ----- Callbacks of pending requests -----

  datatype Message = PeerName | Ping(pong: Payload) | Pong | BubbleUp | Undecodable

  datatype Response =
    | PeerFound(uri: Uri) | ThisPeer(publish: Env) | PeerList(peers: seq<(Uri, Env)>)
    | Encoded | Decoded(message: Message) | Sent | Bound | EntryFetched | OtherFetched | Other | Failed | TimedOut

  function SendToAll(g: Gw, peers: seq<(Uri, Env)>, payload: Payload): Result
    decreases |peers|
  {
    if peers == [] then Done(g, true)
    else
      match StartFull(g, peers[0].0, payload, peers[0].1)
      case Done(g1, true) => SendToAll(g1, peers[1..], payload)
      case other => other
  }

  function OnReceive(g: Gw, uri: Uri, message: Message, env: Env): Result {
    match message
    case PeerName => Publish(g, InnerDht, env)
    case Ping(pong) => StartFull(g, uri, pong, env)
    case Pong => Done(g, true)
    case BubbleUp => Publish(g, EndpointSelf, env)
    case Undecodable => HandlerPanic
  }

  function RunCallback(g: Gw, pending: Pending, response: Response, env: Env): Result
  {
    match pending
    case Resolve(send) =>
      if response.PeerFound? then
        SendFull(Told(g, send.id, response.uri), send.(target := FullLow(response.uri)), env)
      else QueuePending(g, send, env)
    case Encode(send) =>
      if response.Encoded? then Request(g, Transmit(send), env) else QueuePending(g, send, env)
    case Transmit(send) =>
      if response.Sent? then Done(g.(calls := g.calls + [Call(send.id, Success, g.clock)]), !env.fails)
      else QueuePending(g, send, env)
    case Decode(uri) =>
      if response.Decoded? then OnReceive(g, uri, response.message, env) else HandlerPanic
    case ReplyIncoming(uri, payload) =>
      if !response.ThisPeer? then HandlerPanic
      else
        (match Publish(g, EndpointSelf, response.publish)
         case Done(g1, true) => StartFull(g1, uri, payload, env)
         case other => other)
    case SendAllPeers(payload) =>
      if response.PeerList? then SendToAll(g, response.peers, payload) else HandlerPanic
    case RefreshThisPeer => if response.ThisPeer? then Done(g, true) else HandlerPanic
    case ForwardDht => if response.Failed? then HandlerPanic else Done(g, !env.fails)
    case Bind => if response.Failed? then HandlerPanic else Done(g, !env.fails)
    case FetchEntry =>
      if response.EntryFetched? then Publish(g, InnerDht, env)
      else if response.OtherFetched? then Done(g, true) else HandlerPanic
  }

  datatype Answer = Answer(request: nat, response: Response, env: Env)

  /** One answer or timeout arriving at a tracker: unknown ids are an error, known ones are removed
      and their callback runs. */
  function AnswerOne(g: Gw, member: Member, answer: Answer): Result
  {
    if answer.request !in g.pending || Owner(g.pending[answer.request]) != member then Done(g, false)
    else
      RunCallback(g.(pending := g.pending - {answer.request}), g.pending[answer.request], answer.response, answer.env)
  }

  // ----- Process phases -----

  /** `process` of a member: callbacks run until one of them fails. */
  function AnswerAll(g: Gw, member: Member, answers: seq<Answer>): Result
    decreases |answers|
  {
    if answers == [] then Done(g, true)
    else
      match AnswerOne(g, member, answers[0])
      case Done(g1, true) => AnswerAll(g1, member, answers[1..])
      case other => other
  }

  /** detach_run!: take the member out of its cell, run its callbacks, put it back, and only then
      look at the result. */
  function DetachRun(g: Gw, member: Member, answers: seq<Answer>): Result {
    if member !in g.attached then DetachPanic(member)
    else
      match AnswerAll(g.(attached := g.attached - {member}), member, answers)
      case Done(g1, ok) => Done(g1.(attached := g1.attached + {member}), ok)
      case panic => panic
  }

  /** Messages drained from a member after its callbacks ran. */
  datatype Drained =
    // from the parent
    | BindRequest(env: Env) | SendMessage(uri: Uri, payload: Payload, env: Env) | DhtRequest(env: Env)
    | DhtEvent(env: Env) | Bootstrap(uri: Uri, payload: Payload, env: Env) | SendAll(payload: Payload, env: Env)
    // from the transport
    | TransportError(env: Env) | IncomingConnection(uri: Uri, payload: Payload, env: Env)
    | ReceivedData(uri: Uri, env: Env) | ReceivedNothing
    // from the DHT
    | HoldPeerRequested(uri: Uri, ping: Payload, env: Env, publish: Env) | RequestEntry(env: Env)
    | DhtNotice(env: Env) | EntryPruned

  function HandleOne(g: Gw, message: Drained): Result {
    match message
    case BindRequest(env) =>
      (match Request(g, Bind, env)
       case Done(g1, _) => Done(g1, true)
       case panic => panic)
    case SendMessage(uri, payload, env) => StartPartial(g, uri, payload, env)
    case DhtRequest(env) => Request(g, ForwardDht, env)
    case DhtEvent(env) => Publish(g, InnerDht, env)
    case Bootstrap(uri, payload, env) => StartFull(g, uri, payload, env)
    case SendAll(payload, env) => Request(g, SendAllPeers(payload), env)
    case TransportError(env) => Publish(g, EndpointSelf, env)
    case IncomingConnection(uri, payload, env) => Request(g, ReplyIncoming(uri, payload), env)
    case ReceivedData(uri, env) => Request(g, Decode(uri), env)
    case ReceivedNothing => HandlerPanic
    case HoldPeerRequested(uri, ping, env, publish) =>
      (match StartFull(g, uri, ping, env)
       case Done(g1, true) => Publish(g1, EndpointSelf, publish)
       case other => other)
    case RequestEntry(env) => Request(g, FetchEntry, env)
    case DhtNotice(env) => Publish(g, EndpointSelf, env)
    case EntryPruned => HandlerPanic
  }

  function HandleAll(g: Gw, messages: seq<Drained>): Result
    decreases |messages|
  {
    if messages == [] then Done(g, true)
    else
      match HandleOne(g, messages[0])
      case Done(g1, true) => HandleAll(g1, messages[1..])
      case other => other
  }

  datatype Phase =
    | Callbacks(member: Member, answers: seq<Answer>)
    | Messages(messages: seq<Drained>)
    | PendingSends(envs: seq<Env>)
    | Refresh(env: Env)

  function RunPhase(g: Gw, phase: Phase): Result {
    match phase
    case Callbacks(member, answers) => DetachRun(g, member, answers)
    case Messages(messages) => HandleAll(g, messages)
    case PendingSends(envs) => ProcessPendingSends(g, envs)
    case Refresh(env) => Request(g, RefreshThisPeer, env)
  }

  function RunPhases(g: Gw, phases: seq<Phase>): Result
    decreases |phases|
  {
    if phases == [] then Done(g, true)
    else
      match RunPhase(g, phases[0])
      case Done(g1, true) => RunPhases(g1, phases[1..])
      case other => other
  }

  /** Everything the outside world supplies to one process call. */
  datatype Input = Input(
    selfAnswers: seq<Answer>, parentMessages: seq<Drained>,
    transportAnswers: seq<Answer>, transportMessages: seq<Drained>,
    encodingAnswers: seq<Answer>, pendingEnvs: seq<Env>, refresh: Env,
    dhtAnswers: seq<Answer>, dhtMessages: seq<Drained>)

  function Phases(input: Input): seq<Phase> {
    [Callbacks(EndpointSelf, input.selfAnswers), Messages(input.parentMessages),
     Callbacks(InnerTransport, input.transportAnswers), Messages(input.transportMessages),
     Callbacks(MessageEncoding, input.encodingAnswers),
     PendingSends(input.pendingEnvs),
     Refresh(input.refresh),
     Callbacks(InnerDht, input.dhtAnswers), Messages(input.dhtMessages)]
  }

  function ProcessConcrete(g: Gw, input: Input): Result {
    RunPhases(g, Phases(input))
  }

  /** The parent calls process again and again, whether or not the last call reported an error. */
  function Run(g: Gw, inputs: seq<Input>): Result
    decreases |inputs|
  {
    if inputs == [] then Done(g, true)
    else
      match ProcessConcrete(g, inputs[0])
      case Done(g1, _) => Run(g1, inputs[1..])
      case panic => panic
  }

  const INITIAL := Gw(ALL_MEMBERS, [], map[], [], 0, 0, [])
}
