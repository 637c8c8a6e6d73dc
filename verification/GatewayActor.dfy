/** The gateway as an object that updates its fields in place, method by method proved against the
    functions of `Gateway`. */
module GatewayActor {
  import opened Gateway
  import opened GatewayProofs
  import opened GatewayAddresses
  import opened Wrappers

  /** How an operation ended. */
  datatype Status = Finished(ok: bool) | Detached(member: Member) | Unexpected

  function Report(g: Gw, status: Status): Result {
    match status
    case Finished(ok) => Done(g, ok)
    case Detached(member) => DetachPanic(member)
    case Unexpected => HandlerPanic
  }

  const FINE := Finished(true)

  class P2pGateway {
    var attached: set<Member>
    var queue: seq<Send>
    var pending: map<nat, Pending>
    var calls: seq<Call>
    var nextRequest: nat
    var clock: int
    var history: seq<History>

    function State(): Gw
      reads this
    {
      Gw(attached, queue, pending, calls, nextRequest, clock, history)
    }

    /** Between process calls every member is in its cell, and every callback handed to the gateway is
        in exactly one place, on time. */
    ghost predicate Valid()
      reads this
    {
      attached == ALL_MEMBERS && Inv(State(), [])
    }

    constructor ()
      ensures Valid() && State() == INITIAL
    {
      attached, queue, pending, calls := ALL_MEMBERS, [], map[], [];
      nextRequest, clock, history := 0, 0, [];
      new;
      InitialIsFine();
    }

    // ----- Sends -----

    method PrivSendQueuePending(send: Send, env: Env) returns (status: Status)
      modifies this`queue, this`calls, this`clock
      ensures Report(State(), status) == QueuePending(old(State()), send, env)
    {
      clock := clock + env.d0;
      if send.expiresAt < clock {
        calls := calls + [Call(send.id, Timeout, clock)];
        return Finished(!env.fails);
      }
      queue := queue + [send];
      return FINE;
    }

    /** `request` on the member that owns the closure. */
    method RequestOwner(closure: Pending, env: Env) returns (status: Status)
      modifies this`pending, this`nextRequest
      ensures Report(State(), status) == Request(old(State()), closure, env)
    {
      if Owner(closure) !in attached {
        return Detached(Owner(closure));
      }
      pending := pending[nextRequest := closure];
      nextRequest := nextRequest + 1;
      return Finished(!env.fails);
    }

    method PublishTo(member: Member, env: Env) returns (status: Status)
      ensures Report(State(), status) == Publish(State(), member, env)
    {
      return if member in attached then Finished(!env.fails) else Detached(member);
    }

    method PrivSendWithPartialHighUri(send: Send, env: Env) returns (status: Status)
      modifies this`pending, this`nextRequest, this`clock
      ensures Report(State(), status) == SendPartial(old(State()), send, env)
    {
      clock := clock + env.d0;
      status := RequestOwner(Resolve(send.(lastAttempt := clock)), env);
    }

    method PrivSendWithFullLowUri(send: Send, env: Env) returns (status: Status)
      modifies this
      ensures Report(State(), status) == SendFull(old(State()), send, env)
    {
      clock := clock + env.d0;
      if MessageEncoding !in attached {
        status := PrivSendQueuePending(send.(lastAttempt := clock - 2 * SEND_RETRY_INTERVAL_MS), env.(d0 := env.d1));
      } else {
        history := Attempted(State(), send.id).history;
        status := RequestOwner(Encode(send.(lastAttempt := clock)), env);
      }
    }

    method SendWithPartialHighUri(uri: Uri, payload: Payload, env: Env) returns (status: Status)
      modifies this
      ensures Report(State(), status) == StartPartial(old(State()), uri, payload, env)
    {
      hide SendPartial;
      clock := clock + env.d0;
      var send := Send(|history|, PartialHigh(uri), payload, clock, clock + SEND_RETRY_TIMEOUT_MS);
      history := history + [History(clock, payload, PartialHigh(uri), None, [])];
      status := PrivSendWithPartialHighUri(send, env.(d0 := env.d1, d1 := env.d2));
    }

    method SendWithFullLowUri(uri: Uri, payload: Payload, env: Env) returns (status: Status)
      modifies this
      ensures Report(State(), status) == StartFull(old(State()), uri, payload, env)
    {
      hide SendFull;
      clock := clock + env.d0;
      var send := Send(|history|, FullLow(uri), payload, clock, clock + SEND_RETRY_TIMEOUT_MS);
      history := history + [History(clock, payload, FullLow(uri), Some(uri), [])];
      status := PrivSendWithFullLowUri(send, env.(d0 := env.d1, d1 := env.d2));
    }

    method PrivSendCheckDispatch(send: Send, env: Env) returns (status: Status)
      modifies this
      ensures Report(State(), status) == CheckDispatch(old(State()), send, env)
    {
      hide SendFull;
      hide SendPartial;
      hide QueuePending;
      clock := clock + env.d0;
      var env1 := env.(d0 := env.d1, d1 := env.d2);
      if clock - send.lastAttempt < SEND_RETRY_INTERVAL_MS {
        status := PrivSendQueuePending(send, env1);
      } else if send.target.PartialHigh? {
        status := PrivSendWithPartialHighUri(send, env1);
      } else {
        status := PrivSendWithFullLowUri(send, env1);
      }
    }

    /** Drain the queue, dispatch each send, and report an error only after the last one. No send is
        lost on the way. */
    method ProcessTransportPendingSends(envs: seq<Env>) returns (status: Status)
      modifies this
      ensures old(Valid()) ==> Valid() && status.Finished? && Extends(old(State()), State())
      ensures Report(State(), status) == ProcessPendingSends(old(State()), envs)
    {
      hide CheckDispatch;
      hide Inv;
      if attached == ALL_MEMBERS && Inv(State(), []) {
        PendingSendsKept(State(), envs);
      }
      var drained := queue;
      queue := [];
      var ok := true;
      ghost var start := State();
      ghost var left := envs;
      for i := 0 to |drained|
        invariant left == if i <= |envs| then envs[i..] else []
        invariant DispatchAll(start, drained, envs, true) == DispatchAll(State(), drained[i..], left, ok)
      {
        assert drained[i..][1..] == drained[i + 1..];
        assert EnvAt(envs, i) == EnvAt(left, 0);
        status := PrivSendCheckDispatch(drained[i], EnvAt(envs, i));
        if !status.Finished? {
          return;
        }
        ok := ok && status.ok;
        left := if left == [] then [] else left[1..];
      }
      status := Finished(ok);
    }

    // ----- Callbacks -----

    /** One send to each listed peer, unless one fails. */
    method SendAllPeersCallback(peers: seq<(Uri, Env)>, payload: Payload) returns (status: Status)
      modifies this
      ensures status == FINE ==> Grows(old(State()), State(), None, ToEach(peers, payload))
      ensures Report(State(), status) == SendToAll(old(State()), peers, payload)
    {
      hide StartFull;
      SendToAllStarts(State(), peers, payload);
      assert ToEach(peers, payload)[..|peers|] == ToEach(peers, payload);
      hide Grows;
      status := FINE;
      for i := 0 to |peers|
        invariant status == FINE
        invariant SendToAll(old(State()), peers, payload) == SendToAll(State(), peers[i..], payload)
      {
        assert peers[i..][0] == peers[i] && peers[i..][1..] == peers[i + 1..];
        status := SendWithFullLowUri(peers[i].0, payload, peers[i].1);
        if status != FINE {
          return;
        }
      }
    }

    method PrivOnReceive(uri: Uri, message: Message, env: Env) returns (status: Status)
      modifies this
      ensures Report(State(), status) == OnReceive(old(State()), uri, message, env)
    {
      hide StartFull;
      match message
      case PeerName => status := PublishTo(InnerDht, env);
      case Ping(pong) => status := SendWithFullLowUri(uri, pong, env);
      case Pong => status := FINE;
      case BubbleUp => status := PublishTo(EndpointSelf, env);
      case Undecodable => status := Unexpected;
    }

    /** The closures that carry a send. Only a lookup that found the peer tells its send an address. */
    method RunSendClosure(closure: Pending, response: Response, env: Env) returns (status: Status)
      requires HasSend(closure)
      modifies this
      ensures status.Finished? && closure.send.id < |old(history)| ==>
                Grows(old(State()), State(), AnswerTells(closure, response), [])
      ensures Report(State(), status) == RunCallback(old(State()), closure, response, env)
    {
      hide SendFull;
      hide QueuePending;
      hide Request;
      hide StartFull;
      if closure.send.id < |history| {
        CallbackStarts(State(), closure, response, env);
      }
      hide Grows;
      var send := closure.send;
      if closure.Resolve? && response.PeerFound? {
        history := Told(State(), send.id, response.uri).history;
        status := PrivSendWithFullLowUri(send.(target := FullLow(response.uri)), env);
      } else if closure.Encode? && response.Encoded? {
        status := RequestOwner(Transmit(send), env);
      } else if closure.Transmit? && response.Sent? {
        calls := calls + [Call(send.id, Success, clock)];
        status := Finished(!env.fails);
      } else {
        status := PrivSendQueuePending(send, env);
      }
    }

    method HandleIncomingCallback(uri: Uri, payload: Payload, response: Response, env: Env) returns (status: Status)
      modifies this
      ensures Report(State(), status) == RunCallback(old(State()), ReplyIncoming(uri, payload), response, env)
    {
      hide StartFull;
      if !response.ThisPeer? {
        return Unexpected;
      }
      status := PublishTo(EndpointSelf, response.publish);
      if status == FINE {
        status := SendWithFullLowUri(uri, payload, env);
      }
    }

    /** The closures that carry none. */
    method RunPlainClosure(closure: Pending, response: Response, env: Env) returns (status: Status)
      requires !HasSend(closure)
      modifies this
      ensures Report(State(), status) == RunCallback(old(State()), closure, response, env)
    {
      hide OnReceive;
      hide SendToAll;
      hide StartFull;
      match closure
      case Decode(uri) =>
        if response.Decoded? {
          status := PrivOnReceive(uri, response.message, env);
        } else {
          status := Unexpected;
        }
      case ReplyIncoming(uri, payload) =>
        status := HandleIncomingCallback(uri, payload, response, env);
      case SendAllPeers(payload) =>
        if response.PeerList? {
          status := SendAllPeersCallback(response.peers, payload);
        } else {
          status := Unexpected;
        }
      case RefreshThisPeer =>
        status := if response.ThisPeer? then FINE else Unexpected;
      case FetchEntry =>
        if response.EntryFetched? {
          status := PublishTo(InnerDht, env);
        } else {
          status := if response.OtherFetched? then FINE else Unexpected;
        }
      case _ =>
        status := if response.Failed? then Unexpected else Finished(!env.fails);
    }

    method HandleAnswer(member: Member, answer: Answer) returns (status: Status)
      modifies this
      ensures Report(State(), status) == AnswerOne(old(State()), member, answer)
    {
      hide RunCallback;
      if answer.request !in pending || Owner(pending[answer.request]) != member {
        return Finished(false);
      }
      var closure := pending[answer.request];
      pending := pending - {answer.request};
      if HasSend(closure) {
        status := RunSendClosure(closure, answer.response, answer.env);
      } else {
        status := RunPlainClosure(closure, answer.response, answer.env);
      }
    }

    // ----- Phases -----

    method ProcessMember(member: Member, answers: seq<Answer>) returns (status: Status)
      modifies this
      ensures Report(State(), status) == AnswerAll(old(State()), member, answers)
    {
      hide AnswerOne;
      status := FINE;
      for i := 0 to |answers|
        invariant status == FINE
        invariant AnswerAll(old(State()), member, answers) == AnswerAll(State(), member, answers[i..])
      {
        assert answers[i..][0] == answers[i] && answers[i..][1..] == answers[i + 1..];
        status := HandleAnswer(member, answers[i]);
        if status != FINE {
          return;
        }
      }
    }

    /** detach_run!: take, run, put back. */
    method DetachAndProcess(member: Member, answers: seq<Answer>) returns (status: Status)
      modifies this
      ensures old(Valid()) ==> !status.Detached? && (status.Finished? ==> Valid())
      ensures Report(State(), status) == DetachRun(old(State()), member, answers)
    {
      hide AnswerAll;
      hide Inv;
      if attached == ALL_MEMBERS && Inv(State(), []) {
        DetachRuns(State(), member, answers);
      }
      if member !in attached {
        return Detached(member);
      }
      attached := attached - {member};
      status := ProcessMember(member, answers);
      if status.Finished? {
        attached := attached + {member};
      }
    }

    method HandleMessage(message: Drained) returns (status: Status)
      modifies this
      ensures Report(State(), status) == HandleOne(old(State()), message)
    {
      hide StartFull;
      hide StartPartial;
      hide Request;
      match message
      case BindRequest(env) =>
        status := RequestOwner(Bind, env);
        status := if status.Finished? then FINE else status;
      case SendMessage(uri, payload, env) => status := SendWithPartialHighUri(uri, payload, env);
      case DhtRequest(env) => status := RequestOwner(ForwardDht, env);
      case DhtEvent(env) => status := PublishTo(InnerDht, env);
      case Bootstrap(uri, payload, env) => status := SendWithFullLowUri(uri, payload, env);
      case SendAll(payload, env) => status := RequestOwner(SendAllPeers(payload), env);
      case TransportError(env) => status := PublishTo(EndpointSelf, env);
      case IncomingConnection(uri, payload, env) => status := RequestOwner(ReplyIncoming(uri, payload), env);
      case ReceivedData(uri, env) => status := RequestOwner(Decode(uri), env);
      case ReceivedNothing => status := Unexpected;
      case HoldPeerRequested(uri, ping, env, publish) =>
        status := SendWithFullLowUri(uri, ping, env);
        if status == FINE {
          status := PublishTo(EndpointSelf, publish);
        }
      case RequestEntry(env) => status := RequestOwner(FetchEntry, env);
      case DhtNotice(env) => status := PublishTo(EndpointSelf, env);
      case EntryPruned => status := Unexpected;
    }

    method HandleMessages(messages: seq<Drained>) returns (status: Status)
      modifies this
      ensures Report(State(), status) == HandleAll(old(State()), messages)
    {
      hide HandleOne;
      status := FINE;
      for i := 0 to |messages|
        invariant status == FINE
        invariant HandleAll(old(State()), messages) == HandleAll(State(), messages[i..])
      {
        assert messages[i..][0] == messages[i] && messages[i..][1..] == messages[i + 1..];
        status := HandleMessage(messages[i]);
        if status != FINE {
          return;
        }
      }
    }

    /** Whatever happens in one process call, no detached member is used, and unless a handler panics on
        unexpected input the gateway is valid again: no callback is lost, called twice or called early,
        nothing remembered of a send is rewritten, and every send goes where it was told. */
    method ProcessConcreteOnce(input: Input) returns (status: Status)
      requires Valid()
      modifies this
      ensures !status.Detached?
      ensures status.Finished? ==> Valid() && Extends(old(State()), State()) && GoesWhereTold(State())
      ensures Report(State(), status) == ProcessConcrete(old(State()), input)
    {
      hide Inv;
      hide RunPhases;
      hide Phases;
      PhasesRun(State(), Phases(input));
      status := RunEveryPhase(input);
      if status.Finished? {
        InvAims(State());
      }
    }

    method RunEveryPhase(input: Input) returns (status: Status)
      modifies this
      ensures Report(State(), status) == ProcessConcrete(old(State()), input)
    {
      hide RunPhases;
      hide Phases;
      hide DetachRun;
      hide HandleAll;
      hide ProcessPendingSends;
      hide Request;
      hide Inv;
      hide Extends;
      ghost var phases := Phases(input);
      PhaseList(input);
      PhaseStep(State(), phases, 0);
      status := DetachAndProcess(EndpointSelf, input.selfAnswers);
      if status != FINE { return; }
      PhaseStep(State(), phases, 1);
      status := HandleMessages(input.parentMessages);
      if status != FINE { return; }
      PhaseStep(State(), phases, 2);
      status := DetachAndProcess(InnerTransport, input.transportAnswers);
      if status != FINE { return; }
      PhaseStep(State(), phases, 3);
      status := HandleMessages(input.transportMessages);
      if status != FINE { return; }
      PhaseStep(State(), phases, 4);
      status := DetachAndProcess(MessageEncoding, input.encodingAnswers);
      if status != FINE { return; }
      status := RunLaterPhases(input);
    }

    /** The pending sends and what follows them. */
    method RunLaterPhases(input: Input) returns (status: Status)
      modifies this
      ensures Report(State(), status) == RunPhases(old(State()), Phases(input)[5..])
    {
      hide RunPhases;
      hide Phases;
      hide DetachRun;
      hide HandleAll;
      hide ProcessPendingSends;
      hide Request;
      hide Inv;
      hide Extends;
      ghost var phases := Phases(input);
      PhaseList(input);
      PhaseStep(State(), phases, 5);
      status := ProcessTransportPendingSends(input.pendingEnvs);
      if status != FINE { return; }
      PhaseStep(State(), phases, 6);
      status := RequestOwner(RefreshThisPeer, input.refresh);
      if status != FINE { return; }
      PhaseStep(State(), phases, 7);
      status := DetachAndProcess(InnerDht, input.dhtAnswers);
      if status != FINE { return; }
      PhaseStep(State(), phases, 8);
      status := HandleMessages(input.dhtMessages);
    }
  }

  lemma PhaseList(input: Input)
    ensures var p := Phases(input);
            |p| == 9 && p[0..] == p &&
            p[0] == Callbacks(EndpointSelf, input.selfAnswers) && p[1] == Messages(input.parentMessages) &&
            p[2] == Callbacks(InnerTransport, input.transportAnswers) && p[3] == Messages(input.transportMessages) &&
            p[4] == Callbacks(MessageEncoding, input.encodingAnswers) && p[5] == PendingSends(input.pendingEnvs) &&
            p[6] == Refresh(input.refresh) && p[7] == Callbacks(InnerDht, input.dhtAnswers) &&
            p[8] == Messages(input.dhtMessages)
    ensures forall g :: RunPhases(g, Phases(input)[9..]) == Done(g, true)
  {
    hide RunPhase;
    assert Phases(input)[9..] == [];
  }

  lemma PhaseStep(g: Gw, phases: seq<Phase>, k: nat)
    requires k < |phases|
    ensures RunPhases(g, phases[k..]) ==
            match RunPhase(g, phases[k])
            case Done(g1, true) => RunPhases(g1, phases[k + 1..])
            case other => other
  {
    hide RunPhase;
    assert phases[k..][0] == phases[k] && phases[k..][1..] == phases[k + 1..];
  }
}
