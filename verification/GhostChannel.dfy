/** The ghost channel: two endpoints joined by two FIFO queues, each endpoint with a tracker of
    pending callbacks and their deadlines. A callback is known by the id of its request. */
module GhostChannel {
  import opened Wrappers

  type Payload(==, !new)

  /** What a responder passes to `respond`. */
  datatype Answer = Good(value: Payload) | Bad(error: Payload)

  /** What travels on a channel. Events are requests without an id. */
  datatype Wire = Request(request: Option<nat>, payload: Payload) | Response(id: nat, answer: Answer)

  /** A received request or event, as handed to the user by drain_messages. */
  datatype Message = Message(id: Option<nat>, payload: Payload)

  datatype Outcome = Answered(answer: Answer) | TimedOut
  datatype Run = Run(id: nat, outcome: Outcome, at: int)

  /** What one endpoint keeps: deadlines by request id, received messages, callbacks already run. */
  datatype Endpoint = Endpoint(pending: map<nat, int>, outbox: seq<Message>, runs: seq<Run>)

  // ----- What an endpoint does with one wire message or one deadline -----

  /** Whether handling succeeded: false when the id is unknown or the callback itself fails. */
  datatype Handled = Handled(endpoint: Endpoint, ok: bool)

  function HandleResponse(e: Endpoint, id: nat, answer: Answer, now: int, failing: set<nat>): Handled {
    if id !in e.pending then Handled(e, false)
    else Handled(e.(pending := e.pending - {id}, runs := e.runs + [Run(id, Answered(answer), now)]), id !in failing)
  }

  function ReceiveOne(e: Endpoint, wire: Wire, now: int, failing: set<nat>): Handled {
    match wire
    case Request(id, payload) => Handled(e.(outbox := e.outbox + [Message(id, payload)]), true)
    case Response(id, answer) => HandleResponse(e, id, answer, now, failing)
  }

  function ExpireOne(e: Endpoint, id: nat, now: int): Endpoint {
    if id !in e.pending then e
    else e.(pending := e.pending - {id}, runs := e.runs + [Run(id, TimedOut, now)])
  }

  // ----- A whole process call -----

  predicate Expired(e: Endpoint, id: nat, now: int) {
    id in e.pending && now > e.pending[id]
  }

  /** Time out the listed ids in order, stopping after the first callback that fails. */
  function ExpireAll(e: Endpoint, ids: seq<nat>, now: int, failing: set<nat>): Handled
    decreases |ids|
  {
    if ids == [] then Handled(e, true)
    else if ids[0] in e.pending && ids[0] in failing then Handled(ExpireOne(e, ids[0], now), false)
    else ExpireAll(ExpireOne(e, ids[0], now), ids[1..], now, failing)
  }

  /** Receive until the channel is empty or a response fails: the endpoint, how many wire messages
      were consumed, and whether all went well. */
  datatype Received = Received(endpoint: Endpoint, consumed: nat, ok: bool)

  function ReceiveAll(e: Endpoint, wires: seq<Wire>, now: int, failing: set<nat>): (r: Received)
    ensures r.consumed <= |wires|
    ensures r.ok ==> r.consumed == |wires|
    decreases |wires|
  {
    if wires == [] then Received(e, 0, true)
    else
      var h := ReceiveOne(e, wires[0], now, failing);
      if !h.ok then Received(h.endpoint, 1, false)
      else
        var rest := ReceiveAll(h.endpoint, wires[1..], now, failing);
        Received(rest.endpoint, 1 + rest.consumed, rest.ok)
  }

  /** `process`: first the expired callbacks, in some order, then everything in the channel. */
  function ProcessEndpoint(e: Endpoint, ids: seq<nat>, wires: seq<Wire>, now: int, failing: set<nat>): Received {
    var expired := ExpireAll(e, ids, now, failing);
    if !expired.ok then Received(expired.endpoint, 0, false) else ReceiveAll(expired.endpoint, wires, now, failing)
  }

  /** The requests and events among wire messages, as the receiver will see them. */
  function Requests(wires: seq<Wire>): seq<Message> {
    if wires == [] then []
    else (if wires[0].Request? then [Message(wires[0].request, wires[0].payload)] else []) + Requests(wires[1..])
  }

  /** `ids` lists the expired requests of `e`, each once, in any order. */
  ghost predicate ListsExpired(ids: seq<nat>, e: Endpoint, now: int) {
    (forall i, j :: 0 <= i < j < |ids| ==> ids[i] != ids[j]) &&
    (forall id :: id in ids <==> Expired(e, id, now))
  }

  // ----- Two endpoints and the outside world -----

  datatype Side = Parent | Child

  function Other(side: Side): Side {
    if side == Parent then Child else Parent
  }

  datatype Issue = Issue(side: Side, payload: Payload, deadline: int)

  /** One side of the channel: its endpoint, whether that still exists, the wire messages travelling to
      it, and the drained messages its user still holds. A dropped endpoint stays as it was, and so does
      what was travelling to it. The last two fields only remember: every message sent to this side and
      every message drained here. */
  datatype Half = Half(
    endpoint: Endpoint, open: bool, inbox: seq<Wire>, held: seq<Message>, sent: seq<Message>, drained: seq<Message>)

  /** `issued` and `answers` only remember: every request ever made and every answer ever sent. */
  datatype System = System(parent: Half, child: Half, clock: int, issued: map<nat, Issue>, answers: map<nat, Answer>) {
    function At(side: Side): Half {
      if side == Parent then parent else child
    }
    function With(side: Side, half: Half): System {
      if side == Parent then this.(parent := half) else this.(child := half)
    }
  }

  datatype Step =
    | Ask(from: Side, id: nat, payload: Payload, timeout: nat)
    | Publish(from: Side, payload: Payload)
    | Receive(at: Side, failing: set<nat>)
    | Expire(at: Side, id: nat)
    | Drain(at: Side)
    | Respond(from: Side, index: nat, answer: Answer)
    | Drop(from: Side, index: nat)
    | Close(at: Side)
    | Tick(delay: nat)

  /** Request ids are nanoids: never used before. Answering an event with an error panics. Only an
      endpoint that exists does anything; its user can answer what was drained before it went. */
  ghost predicate Enabled(s: System, step: Step) {
    match step
    case Ask(from, id, _, _) => s.At(from).open && id !in s.issued
    case Publish(from, _) => s.At(from).open
    case Receive(at, _) => s.At(at).open && s.At(at).inbox != []
    case Expire(at, id) => s.At(at).open && Expired(s.At(at).endpoint, id, s.clock)
    case Drain(at) => s.At(at).open
    case Close(at) => s.At(at).open
    case Respond(from, i, answer) => i < |s.At(from).held| && (s.At(from).held[i].id.None? ==> answer.Good?)
    case Drop(from, i) => i < |s.At(from).held|
    case _ => true
  }

  /** Sending to an endpoint that is gone fails and changes nothing. */
  function Sent(half: Half, wire: Wire): Half {
    if !half.open then half
    else
      half.(inbox := half.inbox + [wire],
            sent := if wire.Request? then half.sent + [Message(wire.request, wire.payload)] else half.sent)
  }

  function Asked(half: Half, id: nat, deadline: int): Half {
    half.(endpoint := half.endpoint.(pending := half.endpoint.pending[id := deadline]))
  }

  function ReceivedAt(half: Half, now: int, failing: set<nat>): Half
    requires half.inbox != []
  {
    half.(endpoint := ReceiveOne(half.endpoint, half.inbox[0], now, failing).endpoint, inbox := half.inbox[1..])
  }

  function ExpiredAt(half: Half, id: nat, now: int): Half {
    half.(endpoint := ExpireOne(half.endpoint, id, now))
  }

  function DrainedAt(half: Half): Half {
    half.(endpoint := half.endpoint.(outbox := []),
          held := half.held + half.endpoint.outbox,
          drained := half.drained + half.endpoint.outbox)
  }

  function Released(half: Half, i: nat): Half
    requires i < |half.held|
  {
    half.(held := half.held[..i] + half.held[i + 1..])
  }

  ghost function Apply(s: System, step: Step): System
    requires Enabled(s, step)
  {
    match step
    case Ask(from, id, payload, timeout) =>
      s.With(from, Asked(s.At(from), id, s.clock + timeout))
       .With(Other(from), Sent(s.At(Other(from)), Request(Some(id), payload)))
       .(issued := s.issued[id := Issue(from, payload, s.clock + timeout)])
    case Publish(from, payload) => s.With(Other(from), Sent(s.At(Other(from)), Request(None, payload)))
    case Receive(at, failing) => s.With(at, ReceivedAt(s.At(at), s.clock, failing))
    case Expire(at, id) => s.With(at, ExpiredAt(s.At(at), id, s.clock))
    case Drain(at) => s.With(at, DrainedAt(s.At(at)))
    case Respond(from, i, answer) =>
      var id := s.At(from).held[i].id;
      if id.None? || !s.At(Other(from)).open then s.With(from, Released(s.At(from), i))
      else
        s.With(from, Released(s.At(from), i))
         .With(Other(from), Sent(s.At(Other(from)), Response(id.value, answer)))
         .(answers := s.answers[id.value := answer])
    case Drop(from, i) => s.With(from, Released(s.At(from), i))
    case Close(at) => s.With(at, s.At(at).(open := false))
    case Tick(delay) => s.(clock := s.clock + delay)
  }

  const NEW_HALF := Half(Endpoint(map[], [], []), true, [], [], [], [])
  const NEW_SYSTEM := System(NEW_HALF, NEW_HALF, 0, map[], map[])

  ghost predicate ValidRun(s: System, steps: seq<Step>)
    decreases |steps|
  {
    steps == [] || (Enabled(s, steps[0]) && ValidRun(Apply(s, steps[0]), steps[1..]))
  }

  ghost function RunSteps(s: System, steps: seq<Step>): System
    requires ValidRun(s, steps)
    decreases |steps|
  {
    if steps == [] then s else RunSteps(Apply(s, steps[0]), steps[1..])
  }

  // ----- Invariants -----

  function Names(wire: Wire, id: nat): nat {
    match wire
    case Request(named, _) => if named == Some(id) then 1 else 0
    case Response(named, _) => if named == id then 1 else 0
  }

  function WireCount(wires: seq<Wire>, id: nat): nat {
    if wires == [] then 0 else Names(wires[0], id) + WireCount(wires[1..], id)
  }

  function MessageCount(messages: seq<Message>, id: nat): nat {
    if messages == [] then 0 else (if messages[0].id == Some(id) then 1 else 0) + MessageCount(messages[1..], id)
  }

  function RunCount(runs: seq<Run>, id: nat): nat {
    if runs == [] then 0 else (if runs[0].id == id then 1 else 0) + RunCount(runs[1..], id)
  }

  /** How many handles on request `id` are on one side: travelling to it, in its outbox, or in its
      user's hands. A response travelling back is what became of a handle. */
  function HandlesAt(half: Half, id: nat): nat {
    WireCount(half.inbox, id) + MessageCount(half.endpoint.outbox, id) + MessageCount(half.held, id)
  }

  function Handles(s: System, id: nat): nat {
    HandlesAt(s.parent, id) + HandlesAt(s.child, id)
  }

  /** How many callbacks for `id` an endpoint has: waiting in its tracker or run. */
  function CallbacksOf(e: Endpoint, id: nat): nat {
    (if id in e.pending then 1 else 0) + RunCount(e.runs, id)
  }

  function CallbacksAt(half: Half, id: nat): nat {
    CallbacksOf(half.endpoint, id)
  }

  function Callbacks(s: System, id: nat): nat {
    CallbacksAt(s.parent, id) + CallbacksAt(s.child, id)
  }

  ghost predicate IssuedBy(s: System, id: nat, side: Side) {
    id in s.issued && s.issued[id].side == side
  }

  ghost predicate Unanswered(s: System, m: Message, at: Side) {
    m.id.Some? ==>
      IssuedBy(s, m.id.value, Other(at)) && s.issued[m.id.value].payload == m.payload && m.id.value !in s.answers
  }

  ghost predicate WireOk(s: System, wire: Wire, to: Side) {
    match wire
    case Request(id, payload) => Unanswered(s, Message(id, payload), to)
    case Response(id, answer) => IssuedBy(s, id, to) && id in s.answers && s.answers[id] == answer
  }

  ghost predicate RunOk(s: System, run: Run, at: Side) {
    IssuedBy(s, run.id, at) && run.at <= s.clock &&
    (match run.outcome
     case Answered(answer) => run.id in s.answers && s.answers[run.id] == answer && Handles(s, run.id) == 0
     case TimedOut => run.at > s.issued[run.id].deadline)
  }

  ghost predicate SideOk(s: System, side: Side) {
    var half := s.At(side);
    (forall i :: 0 <= i < |half.inbox| ==> WireOk(s, half.inbox[i], side)) &&
    (forall i :: 0 <= i < |half.endpoint.outbox| ==> Unanswered(s, half.endpoint.outbox[i], side)) &&
    (forall i :: 0 <= i < |half.held| ==> Unanswered(s, half.held[i], side)) &&
    (forall id :: id in half.endpoint.pending ==>
      IssuedBy(s, id, side) && s.issued[id].deadline == half.endpoint.pending[id]) &&
    (forall i :: 0 <= i < |half.endpoint.runs| ==> RunOk(s, half.endpoint.runs[i], side))
  }

  ghost predicate Inv(s: System) {
    (forall id: nat :: Callbacks(s, id) == if id in s.issued then 1 else 0) &&
    (forall id: nat :: Handles(s, id) <= if id in s.issued then 1 else 0) &&
    s.answers.Keys <= s.issued.Keys && SideOk(s, Parent) && SideOk(s, Child)
  }
}
