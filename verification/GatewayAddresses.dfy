/** Which sends a gateway starts, and where each of them goes. */
module GatewayAddresses {
  import opened Gateway
  import opened GatewayProofs
  import opened Wrappers

  // ----- Where sends go -----

  /** In every run a send goes where it was told. While it waits for its address it carries the one it
      was given; queued, encoded or transmitted after that it carries exactly the full address found
      for it, which is the given one if that was full already. */
  ghost predicate GoesWhereTold(g: Gw) {
    (forall i :: 0 <= i < |g.history| && g.history[i].given.FullLow? ==>
      g.history[i].told == Some(g.history[i].given.uri)) &&
    (forall i :: 0 <= i < |g.queue| ==>
      g.queue[i].id < |g.history| &&
      var h := g.history[g.queue[i].id];
      match h.told
      case Some(uri) => g.queue[i].target == FullLow(uri)
      case None => g.queue[i].target == h.given && h.given.PartialHigh?) &&
    (forall r :: r in g.pending && HasSend(g.pending[r]) ==>
      g.pending[r].send.id < |g.history| &&
      var h := g.history[g.pending[r].send.id];
      if g.pending[r].Resolve? then h.told.None? && h.given.PartialHigh? && g.pending[r].send.target == h.given
      else h.told.Some? && g.pending[r].send.target == FullLow(h.told.value))
  }

  lemma InvAims(g: Gw)
    requires Inv(g, [])
    ensures GoesWhereTold(g)
  {
    hide Linear;
    assert forall i :: 0 <= i < |g.history| ==> HistoryOk(g.history[i], g.clock);
    forall i | 0 <= i < |g.queue| ensures Genuine(g, g.queue[i]) {
      assert QueuedOk(g, g.queue[i]);
    }
    forall r | r in g.pending && HasSend(g.pending[r])
      ensures Genuine(g, g.pending[r].send) && PendingOk(g, g.pending[r])
    {
      assert PendingOk(g, g.pending[r]);
    }
  }

  lemma SendsGoWhereTold(inputs: seq<Input>)
    requires Run(INITIAL, inputs).Done?
    ensures GoesWhereTold(Run(INITIAL, inputs).g)
  {
    hide Inv;
    hide Run;
    InitialIsFine();
    EveryRunIsGood(INITIAL, inputs);
    InvAims(Run(INITIAL, inputs).g);
  }

  // ----- What is started, and what is told -----

  /** From `g` to `g'` exactly the listed sends were started, in order, and one send at most was told its
      address. */
  ghost predicate Grows(g: Gw, g': Gw, tells: Option<(nat, Uri)>, starts: seq<(Target, Payload)>) {
    |g'.history| == |g.history| + |starts| &&
    (forall id :: 0 <= id < |g.history| ==>
      var h, h' := g.history[id], g'.history[id];
      h'.given == h.given && h'.payload == h.payload &&
      h'.told == if tells.Some? && tells.value.0 == id then Some(tells.value.1) else h.told) &&
    (forall i :: 0 <= i < |starts| ==>
      var h' := g'.history[|g.history| + i];
      h'.given == starts[i].0 && h'.payload == starts[i].1 &&
      h'.told == if starts[i].0.FullLow? then Some(starts[i].0.uri) else None)
  }

  /** What a drained message starts: a send of the parent to a peer by name, a bootstrap or a ping to an
      address. */
  function MessageStarts(message: Drained): seq<(Target, Payload)> {
    match message
    case SendMessage(uri, payload, _) => [(PartialHigh(uri), payload)]
    case Bootstrap(uri, payload, _) => [(FullLow(uri), payload)]
    case HoldPeerRequested(uri, ping, _, _) => [(FullLow(uri), ping)]
    case _ => []
  }

  /** What an answer starts: the reply to a ping or to an incoming connection, or one send for each
      listed peer. */
  function AnswerStarts(p: Pending, response: Response): seq<(Target, Payload)> {
    match (p, response)
    case (Decode(uri), Decoded(Ping(pong))) => [(FullLow(uri), pong)]
    case (ReplyIncoming(uri, payload), ThisPeer(publish)) => [(FullLow(uri), payload)]
    case (SendAllPeers(payload), PeerList(peers)) => ToEach(peers, payload)
    case _ => []
  }

  function ToEach(peers: seq<(Uri, Env)>, payload: Payload): seq<(Target, Payload)> {
    seq(|peers|, i requires 0 <= i < |peers| => (FullLow(peers[i].0), payload))
  }

  /** What an answer tells: the peer found is the address of the send that asked. */
  function AnswerTells(p: Pending, response: Response): Option<(nat, Uri)> {
    if p.Resolve? && response.PeerFound? then Some((p.send.id, response.uri)) else None
  }

  lemma StartsGrow(g: Gw, uri: Uri, payload: Payload, env: Env)
    ensures var r := StartFull(g, uri, payload, env); r.Done? ==> Grows(g, r.g, None, [(FullLow(uri), payload)])
    ensures var r := StartPartial(g, uri, payload, env); r.Done? ==> Grows(g, r.g, None, [(PartialHigh(uri), payload)])
  {
  }

  /** Sending to all: a call that comes through has started one send for each listed peer, to that peer,
      with that payload; one that fails, for the peers up to the failing one. */
  lemma {:induction false} SendToAllStarts(g: Gw, peers: seq<(Uri, Env)>, payload: Payload)
    ensures var r := SendToAll(g, peers, payload);
            r.Done? ==>
              var n := |r.g.history| - |g.history|;
              0 <= n <= |peers| && (r.ok ==> n == |peers|) && (!r.ok ==> n > 0) &&
              Grows(g, r.g, None, ToEach(peers, payload)[..n])
    decreases |peers|
  {
    if peers != [] {
      hide StartFull;
      hide ToEach;
      hide Grows;
      StartsGrow(g, peers[0].0, payload, peers[0].1);
      var r1 := StartFull(g, peers[0].0, payload, peers[0].1);
      if r1.Done? {
        if r1.ok {
          SendToAllStarts(r1.g, peers[1..], payload);
        }
        var r := if r1.ok then SendToAll(r1.g, peers[1..], payload) else r1;
        assert r == SendToAll(g, peers, payload);
        if r.Done? {
          OneMore(g, r1.g, r.g, peers, payload);
        }
      }
    }
  }

  lemma OneMore(g: Gw, g1: Gw, g': Gw, peers: seq<(Uri, Env)>, payload: Payload)
    requires peers != [] && Grows(g, g1, None, [(FullLow(peers[0].0), payload)])
    requires g' == g1 || (0 <= |g'.history| - |g1.history| <= |peers| - 1 &&
                          Grows(g1, g', None, ToEach(peers[1..], payload)[..|g'.history| - |g1.history|]))
    ensures var n := |g'.history| - |g.history|;
            n == 1 + |g'.history| - |g1.history| && 1 <= n <= |peers| && Grows(g, g', None, ToEach(peers, payload)[..n])
  {
    var n := |g'.history| - |g1.history|;
    var first, all, others := (FullLow(peers[0].0), payload), ToEach(peers, payload), ToEach(peers[1..], payload);
    assert |g1.history| == |g.history| + 1;
    assert all[..n + 1] == [first] + others[..n];
    if g' == g1 {
      assert [first] + others[..0] == [first];
    } else {
      hide Grows;
      GrowsOn(g, g1, g', [first], others[..n]);
    }
  }

  lemma GrowsOn(a: Gw, b: Gw, c: Gw, first: seq<(Target, Payload)>, more: seq<(Target, Payload)>)
    requires Grows(a, b, None, first) && Grows(b, c, None, more)
    ensures Grows(a, c, None, first + more)
  {
  }

  /** Which sends a message starts, where to and with what; it tells none its address. */
  lemma MessageStartsExactly(g: Gw, message: Drained)
    ensures var r := HandleOne(g, message); r.Done? ==> Grows(g, r.g, None, MessageStarts(message))
  {
    hide StartFull;
    hide StartPartial;
    match message
    case SendMessage(uri, payload, env) => StartsGrow(g, uri, payload, env);
    case Bootstrap(uri, payload, env) => StartsGrow(g, uri, payload, env);
    case HoldPeerRequested(uri, ping, env, publish) => StartsGrow(g, uri, ping, env);
    case _ =>
  }

  lemma CallbackStarts(g: Gw, p: Pending, response: Response, env: Env)
    requires HasSend(p) ==> p.send.id < |g.history|
    ensures var r, all := RunCallback(g, p, response, env), AnswerStarts(p, response);
            r.Done? ==>
              var n := |r.g.history| - |g.history|;
              0 <= n <= |all| && (r.ok ==> n == |all|) && Grows(g, r.g, AnswerTells(p, response), all[..n])
  {
    if HasSend(p) {
      SendCallbackTells(g, p, response, env);
    } else {
      PlainCallbackStarts(g, p, response, env);
    }
  }

  lemma SendCallbackTells(g: Gw, p: Pending, response: Response, env: Env)
    requires HasSend(p) && p.send.id < |g.history|
    ensures var r := RunCallback(g, p, response, env); r.Done? ==> Grows(g, r.g, AnswerTells(p, response), [])
  {
  }

  lemma PlainCallbackStarts(g: Gw, p: Pending, response: Response, env: Env)
    requires !HasSend(p)
    ensures var r, all := RunCallback(g, p, response, env), AnswerStarts(p, response);
            r.Done? ==>
              var n := |r.g.history| - |g.history|;
              0 <= n <= |all| && (r.ok ==> n == |all|) && Grows(g, r.g, None, all[..n])
  {
    hide StartFull;
    hide SendToAll;
    match p
    case Decode(uri) =>
      if response.Decoded? && response.message.Ping? {
        StartsGrow(g, uri, response.message.pong, env);
      }
    case ReplyIncoming(uri, payload) => StartsGrow(g, uri, payload, env);
    case SendAllPeers(payload) =>
      if response.PeerList? {
        SendToAllStarts(g, response.peers, payload);
        hide Grows;
      }
    case _ =>
  }

  /** Which sends an answer starts, and which address it tells to whom: exactly the send that asked for
      its peer hears the address found, and no other. */
  lemma AnswerStartsExactly(g: Gw, member: Member, answer: Answer)
    requires Inv(g, [])
    ensures var r := AnswerOne(g, member, answer);
            r.Done? ==>
              if answer.request !in g.pending || Owner(g.pending[answer.request]) != member
              then Grows(g, r.g, None, [])
              else
                var p, n := g.pending[answer.request], |r.g.history| - |g.history|;
                var all := AnswerStarts(p, answer.response);
                0 <= n <= |all| && (r.ok ==> n == |all|) && Grows(g, r.g, AnswerTells(p, answer.response), all[..n])
  {
    hide Linear;
    hide RunCallback;
    if answer.request in g.pending && Owner(g.pending[answer.request]) == member {
      var p := g.pending[answer.request];
      assert PendingOk(g, p);
      CallbackStarts(g.(pending := g.pending - {answer.request}), p, answer.response, answer.env);
    }
  }

  /** A drain of the retry queue starts nothing and tells nothing. */
  lemma {:induction false} DrainStartsNothing(g: Gw, sends: seq<Send>, envs: seq<Env>, ok: bool)
    ensures var r := DispatchAll(g, sends, envs, ok); r.Done? ==> Grows(g, r.g, None, [])
    decreases |sends|
  {
    if sends != [] {
      DispatchStartsNothing(g, sends[0], EnvAt(envs, 0));
      hide CheckDispatch;
      var r1 := CheckDispatch(g, sends[0], EnvAt(envs, 0));
      if r1.Done? {
        DrainStartsNothing(r1.g, sends[1..], if envs == [] then [] else envs[1..], ok && r1.ok);
      }
    }
  }

  lemma DispatchStartsNothing(g: Gw, send: Send, env: Env)
    ensures var r := CheckDispatch(g, send, env); r.Done? ==> Grows(g, r.g, None, [])
  {
  }

  // ----- What is asked, and how sends end -----

  /** The request a drained message leads to, if it leads to one that carries no send. */
  function MessageAsks(message: Drained): Option<Pending> {
    match message
    case BindRequest(_) => Some(Bind)
    case DhtRequest(_) => Some(ForwardDht)
    case SendAll(payload, _) => Some(SendAllPeers(payload))
    case IncomingConnection(uri, payload, _) => Some(ReplyIncoming(uri, payload))
    case ReceivedData(uri, _) => Some(Decode(uri))
    case RequestEntry(_) => Some(FetchEntry)
    case _ => None
  }

  /** A message's request is in its tracker afterwards, also if the channel failed; nothing else that
      carries no send was asked, and no callback was called but with a timeout. */
  lemma MessageAsksExactly(g: Gw, message: Drained)
    requires forall r :: r in g.pending ==> r < g.nextRequest
    ensures var r := HandleOne(g, message);
            r.Done? ==>
              OnlyTimeouts(g, r.g) &&
              match MessageAsks(message)
              case Some(p) => r.g.pending == g.pending[g.nextRequest := p] && r.g.queue == g.queue
              case None => forall q :: q in r.g.pending && !HasSend(r.g.pending[q]) ==>
                             q in g.pending && g.pending[q] == r.g.pending[q]
  {
  }

  /** The callbacks called from `g` to `g'` were told of a timeout. */
  ghost predicate OnlyTimeouts(g: Gw, g': Gw) {
    g.calls <= g'.calls && forall i :: |g.calls| <= i < |g'.calls| ==> g'.calls[i].outcome == Timeout
  }

  /** The next place of a send whose request was answered: found it is encoded or, while the encoder is
      out, waits; encoded it is transmitted, unchanged; sent its callback hears of success; otherwise it
      waits again or, expired, hears of a timeout. Success is heard on no other answer. */
  ghost predicate Settles(g: Gw, r: Result, p: Pending, response: Response, env: Env) {
    r.Done? ==>
      match p
      case Transmit(send) =>
        if response.Sent? then r.g.calls == g.calls + [Call(send.id, Success, g.clock)] && r.g.queue == g.queue
        else SetAside(g, r.g, send)
      case Encode(send) =>
        if response.Encoded?
        then g.nextRequest in r.g.pending && r.g.pending[g.nextRequest] == Transmit(send) && r.g.calls == g.calls
        else SetAside(g, r.g, send)
      case Resolve(send) =>
        if response.PeerFound? then FoundAt(g, r.g, send.(target := FullLow(response.uri))) else SetAside(g, r.g, send)
      case _ => OnlyTimeouts(g, r.g)
  }

  ghost predicate SetAside(g: Gw, g': Gw, send: Send) {
    if send.expiresAt < g'.clock then g'.calls == g.calls + [Call(send.id, Timeout, g'.clock)] && g'.queue == g.queue
    else g'.calls == g.calls && g'.queue == g.queue + [send]
  }

  ghost predicate FoundAt(g: Gw, g': Gw, send: Send) {
    if MessageEncoding in g.attached
    then g'.calls == g.calls && g'.queue == g.queue && g.nextRequest in g'.pending &&
         exists at :: g'.pending[g.nextRequest] == Encode(send.(lastAttempt := at))
    else exists at :: SetAside(g, g', send.(lastAttempt := at))
  }

  lemma {:induction false} SendToAllCalls(g: Gw, peers: seq<(Uri, Env)>, payload: Payload)
    ensures var r := SendToAll(g, peers, payload); r.Done? ==> OnlyTimeouts(g, r.g)
    decreases |peers|
  {
    if peers != [] {
      StartCalls(g, peers[0].0, payload, peers[0].1);
      hide StartFull;
      var r := StartFull(g, peers[0].0, payload, peers[0].1);
      if r.Done? && r.ok {
        SendToAllCalls(r.g, peers[1..], payload);
      }
    }
  }

  lemma StartCalls(g: Gw, uri: Uri, payload: Payload, env: Env)
    ensures var r := StartFull(g, uri, payload, env); r.Done? ==> OnlyTimeouts(g, r.g)
  {
  }

  lemma SendSettles(g: Gw, p: Pending, response: Response, env: Env)
    requires HasSend(p)
    ensures Settles(g, RunCallback(g, p, response, env), p, response, env)
  {
    var r := RunCallback(g, p, response, env);
    if p.Resolve? && response.PeerFound? && r.Done? {
      var send, g1 := p.send.(target := FullLow(response.uri)), Told(g, p.send.id, response.uri);
      var now := g.clock + env.d0;
      if MessageEncoding in g.attached {
        assert r.g.pending[g.nextRequest] == Encode(send.(lastAttempt := now));
      } else {
        assert SetAside(g, r.g, send.(lastAttempt := now - 2 * SEND_RETRY_INTERVAL_MS));
      }
    }
  }

  lemma PlainSettles(g: Gw, p: Pending, response: Response, env: Env)
    requires !HasSend(p)
    ensures Settles(g, RunCallback(g, p, response, env), p, response, env)
  {
    hide StartFull;
    hide SendToAll;
    match p
    case Decode(uri) =>
      if response.Decoded? && response.message.Ping? {
        StartCalls(g, uri, response.message.pong, env);
      }
    case ReplyIncoming(uri, payload) => StartCalls(g, uri, payload, env);
    case SendAllPeers(payload) =>
      if response.PeerList? {
        SendToAllCalls(g, response.peers, payload);
      }
    case _ =>
  }

  /** What an answer does to the send that waited for it. */
  lemma AnswerSettles(g: Gw, member: Member, answer: Answer)
    requires answer.request in g.pending && Owner(g.pending[answer.request]) == member
    ensures Settles(g, AnswerOne(g, member, answer), g.pending[answer.request], answer.response, answer.env)
  {
    var g1, p := g.(pending := g.pending - {answer.request}), g.pending[answer.request];
    if HasSend(p) {
      SendSettles(g1, p, answer.response, answer.env);
    } else {
      PlainSettles(g1, p, answer.response, answer.env);
    }
    hide RunCallback;
  }

  // ----- A request is answered once -----

  /** New requests get ids never used before. */
  ghost predicate NewIds(g: Gw, g': Gw) {
    g.nextRequest <= g'.nextRequest && forall r :: r in g'.pending ==> r in g.pending || r >= g.nextRequest
  }

  lemma StartIds(g: Gw, uri: Uri, payload: Payload, env: Env)
    ensures var r := StartFull(g, uri, payload, env); r.Done? ==> NewIds(g, r.g)
  {
  }

  lemma {:induction false} SendToAllIds(g: Gw, peers: seq<(Uri, Env)>, payload: Payload)
    ensures var r := SendToAll(g, peers, payload); r.Done? ==> NewIds(g, r.g)
    decreases |peers|
  {
    if peers != [] {
      StartIds(g, peers[0].0, payload, peers[0].1);
      hide StartFull;
      var r := StartFull(g, peers[0].0, payload, peers[0].1);
      if r.Done? && r.ok {
        SendToAllIds(r.g, peers[1..], payload);
      }
    }
  }

  lemma CallbackIds(g: Gw, p: Pending, response: Response, env: Env)
    ensures var r := RunCallback(g, p, response, env); r.Done? ==> NewIds(g, r.g)
  {
    hide StartFull;
    hide SendToAll;
    match p
    case Decode(uri) =>
      if response.Decoded? && response.message.Ping? {
        StartIds(g, uri, response.message.pong, env);
      }
    case ReplyIncoming(uri, payload) => StartIds(g, uri, payload, env);
    case SendAllPeers(payload) =>
      if response.PeerList? {
        SendToAllIds(g, response.peers, payload);
      }
    case _ =>
  }

  /** Once answered, whatever the answer started, the request is gone: another answer to it, at whichever
      tracker, is an error and changes nothing. */
  lemma SecondAnswerRefused(g: Gw, member: Member, answer: Answer, other: Member, again: Answer)
    requires Inv(g, []) && again.request == answer.request && answer.request in g.pending
    requires Owner(g.pending[answer.request]) == member && AnswerOne(g, member, answer).Done?
    ensures var g' := AnswerOne(g, member, answer).g; AnswerOne(g', other, again) == Done(g', false)
  {
    CallbackIds(g.(pending := g.pending - {answer.request}), g.pending[answer.request], answer.response, answer.env);
    hide RunCallback;
  }

  // ----- Success is heard at most once for each message sent -----

  function Successes(calls: seq<Call>): nat {
    if calls == [] then 0
    else Successes(calls[..|calls| - 1]) + if calls[|calls| - 1].outcome == Success then 1 else 0
  }

  function SentAnswers(answers: seq<Answer>): nat {
    if answers == [] then 0 else (if answers[0].response.Sent? then 1 else 0) + SentAnswers(answers[1..])
  }

  lemma {:induction false} TimeoutsDoNotCount(g: Gw, g': Gw)
    requires OnlyTimeouts(g, g')
    ensures Successes(g'.calls) == Successes(g.calls)
    decreases |g'.calls|
  {
    if |g'.calls| > |g.calls| {
      TimeoutsDoNotCount(g, g'.(calls := g'.calls[..|g'.calls| - 1]));
    } else {
      assert g'.calls == g.calls;
    }
  }

  lemma OneCall(g: Gw, call: Call)
    ensures Successes(g.calls + [call]) == Successes(g.calls) + if call.outcome == Success then 1 else 0
  {
    assert (g.calls + [call])[..|g.calls|] == g.calls;
  }

  lemma AnswerCounts(g: Gw, member: Member, answer: Answer)
    ensures var r := AnswerOne(g, member, answer);
            r.Done? ==>
              Successes(r.g.calls) <=
                Successes(g.calls) + if answer.response.Sent? && member == InnerTransport then 1 else 0
  {
    var r := AnswerOne(g, member, answer);
    if r.Done? && answer.request in g.pending && Owner(g.pending[answer.request]) == member {
      var p := g.pending[answer.request];
      AnswerSettles(g, member, answer);
      hide AnswerOne;
      hide Successes;
      if p.Transmit? && answer.response.Sent? {
        OneCall(g, Call(p.send.id, Success, g.clock));
      } else {
        TimeoutsDoNotCount(g, r.g);
      }
    }
  }

  lemma {:induction false} AnswersCount(g: Gw, member: Member, answers: seq<Answer>)
    ensures var r := AnswerAll(g, member, answers);
            r.Done? ==>
              Successes(r.g.calls) <=
                Successes(g.calls) + if member == InnerTransport then SentAnswers(answers) else 0
    decreases |answers|
  {
    if answers != [] {
      hide AnswerOne;
      hide Successes;
      AnswerCounts(g, member, answers[0]);
      var r := AnswerOne(g, member, answers[0]);
      if r.Done? && r.ok {
        AnswersCount(r.g, member, answers[1..]);
      }
    }
  }

  lemma {:induction false} MessagesCount(g: Gw, messages: seq<Drained>)
    ensures var r := HandleAll(g, messages); r.Done? ==> Successes(r.g.calls) == Successes(g.calls)
    decreases |messages|
  {
    if messages != [] {
      MessageCalls(g, messages[0]);
      hide HandleOne;
      hide Successes;
      var r := HandleOne(g, messages[0]);
      if r.Done? {
        TimeoutsDoNotCount(g, r.g);
        if r.ok {
          MessagesCount(r.g, messages[1..]);
        }
      }
    }
  }

  lemma MessageCalls(g: Gw, message: Drained)
    ensures var r := HandleOne(g, message); r.Done? ==> OnlyTimeouts(g, r.g)
  {
  }

  lemma {:induction false} DrainCounts(g: Gw, sends: seq<Send>, envs: seq<Env>, ok: bool)
    ensures var r := DispatchAll(g, sends, envs, ok); r.Done? ==> Successes(r.g.calls) == Successes(g.calls)
    decreases |sends|
  {
    if sends != [] {
      assert var r := CheckDispatch(g, sends[0], EnvAt(envs, 0)); r.Done? ==> OnlyTimeouts(g, r.g);
      hide CheckDispatch;
      hide Successes;
      var r := CheckDispatch(g, sends[0], EnvAt(envs, 0));
      if r.Done? {
        TimeoutsDoNotCount(g, r.g);
        DrainCounts(r.g, sends[1..], if envs == [] then [] else envs[1..], ok && r.ok);
      }
    }
  }

  /** How often the transport says in these phases that a message was sent. */
  function SentIn(phases: seq<Phase>): nat {
    if phases == [] then 0
    else
      (if phases[0].Callbacks? && phases[0].member == InnerTransport then SentAnswers(phases[0].answers) else 0) +
      SentIn(phases[1..])
  }

  lemma PhaseCounts(g: Gw, phase: Phase)
    ensures var r := RunPhase(g, phase);
            r.Done? ==>
              Successes(r.g.calls) <= Successes(g.calls) +
                if phase.Callbacks? && phase.member == InnerTransport then SentAnswers(phase.answers) else 0
  {
    hide Successes;
    match phase
    case Callbacks(member, answers) => AnswersCount(g.(attached := g.attached - {member}), member, answers);
    case Messages(messages) => MessagesCount(g, messages);
    case PendingSends(envs) => DrainCounts(g.(queue := []), g.queue, envs, true);
    case Refresh(env) =>
  }

  lemma {:induction false} PhasesCount(g: Gw, phases: seq<Phase>)
    ensures var r := RunPhases(g, phases); r.Done? ==> Successes(r.g.calls) <= Successes(g.calls) + SentIn(phases)
    decreases |phases|
  {
    if phases != [] {
      PhaseCounts(g, phases[0]);
      hide RunPhase;
      hide Successes;
      var r := RunPhase(g, phases[0]);
      if r.Done? && r.ok {
        PhasesCount(r.g, phases[1..]);
      }
    }
  }

  function SentInRun(inputs: seq<Input>): nat {
    if inputs == [] then 0 else SentAnswers(inputs[0].transportAnswers) + SentInRun(inputs[1..])
  }

  predicate OfTransport(phase: Phase) {
    phase.Callbacks? && phase.member == InnerTransport
  }

  lemma {:induction false} SentElsewhere(phases: seq<Phase>)
    requires forall i :: 0 <= i < |phases| ==> !OfTransport(phases[i])
    ensures SentIn(phases) == 0
  {
    if phases != [] {
      SentElsewhere(phases[1..]);
    }
  }

  lemma {:induction false} SentInJoin(a: seq<Phase>, b: seq<Phase>)
    ensures SentIn(a + b) == SentIn(a) + SentIn(b)
  {
    if a == [] {
      assert a + b == b;
    } else {
      assert (a + b)[1..] == a[1..] + b;
      SentInJoin(a[1..], b);
    }
  }

  lemma SentInCall(input: Input)
    ensures SentIn(Phases(input)) == SentAnswers(input.transportAnswers)
  {
    var p, third := Phases(input), [Callbacks(InnerTransport, input.transportAnswers)];
    assert p[..2] + (third + p[3..]) == p && third[1..] == [];
    assert forall i :: 0 <= i < |p| && i != 2 ==> !OfTransport(p[i]);
    assert SentIn(third) == SentAnswers(input.transportAnswers);
    hide Phases;
    SentElsewhere(p[..2]);
    SentElsewhere(p[3..]);
    hide SentIn;
    SentInJoin(p[..2], third + p[3..]);
    SentInJoin(third, p[3..]);
  }

  /** Success is never made up: in every run, callbacks that heard of success are at most as many as the
      messages the transport said it sent. */
  lemma {:induction false} SuccessMeansSent(g: Gw, inputs: seq<Input>)
    ensures Run(g, inputs).Done? ==> Successes(Run(g, inputs).g.calls) <= Successes(g.calls) + SentInRun(inputs)
    decreases |inputs|
  {
    if inputs != [] {
      PhasesCount(g, Phases(inputs[0]));
      SentInCall(inputs[0]);
      hide RunPhases;
      hide Phases;
      hide Successes;
      var r := ProcessConcrete(g, inputs[0]);
      if r.Done? {
        SuccessMeansSent(r.g, inputs[1..]);
      }
    }
  }
}
