/** Every send comes to an end: once it has expired, four process calls that serve it suffice. */
module GatewayLiveness {
  import opened Gateway
  import opened GatewayProofs
  import opened Wrappers

  // ----- How far a send is from its end -----

  /** Answers still to come for a closure that carries a send. */
  function Rank(p: Pending): nat {
    match p
    case Resolve(_) => 3
    case Encode(_) => 2
    case Transmit(_) => 1
    case _ => 0
  }

  predicate Carries(p: Pending, id: nat) {
    HasSend(p) && p.send.id == id
  }

  ghost predicate Called(g: Gw, id: nat) {
    exists i :: 0 <= i < |g.calls| && g.calls[i].id == id
  }

  ghost predicate Pends(g: Gw, id: nat, k: nat) {
    exists r :: r in g.pending && Carries(g.pending[r], id) && Rank(g.pending[r]) <= k
  }

  ghost predicate Queued(sends: seq<Send>, id: nat) {
    exists i :: 0 <= i < |sends| && sends[i].id == id
  }

  /** At most `k` answers and drains away from its end; a queued send is 4 away. */
  ghost predicate Near(g: Gw, id: nat, k: nat) {
    Called(g, id) || Pends(g, id, k) || (k >= 4 && Queued(g.queue, id))
  }

  /** The send has expired. */
  predicate Late(g: Gw, id: nat) {
    id < |g.history| && g.clock > g.history[id].start + SEND_RETRY_TIMEOUT_MS
  }

  // ----- What every operation leaves alone -----

  ghost predicate Low(g: Gw) {
    forall r :: r in g.pending ==> r < g.nextRequest
  }

  /** Nothing is taken out of the queue or the trackers, and no call is taken back. */
  ghost predicate Keeps(g: Gw, g': Gw) {
    Low(g') && g.queue <= g'.queue && g.calls <= g'.calls &&
    forall r :: r in g.pending ==> r in g'.pending && g'.pending[r] == g.pending[r]
  }

  ghost predicate KeepsIfDone(g: Gw, r: Result) {
    r.Done? ==> Keeps(g, r.g)
  }

  lemma KeepsTransitive(a: Gw, b: Gw, c: Gw)
    requires Keeps(a, b) && Keeps(b, c)
    ensures Keeps(a, c)
  {
  }

  lemma KeepsNear(g: Gw, g': Gw, id: nat, k: nat)
    requires Keeps(g, g') && Near(g, id, k)
    ensures Near(g', id, k)
  {
    if i :| 0 <= i < |g.calls| && g.calls[i].id == id {
      assert g'.calls[i].id == id;
    } else if r :| r in g.pending && Carries(g.pending[r], id) && Rank(g.pending[r]) <= k {
      assert r in g'.pending;
    } else {
      var i :| 0 <= i < |g.queue| && g.queue[i].id == id;
      assert g'.queue[i].id == id;
    }
  }

  lemma NearWeakens(g: Gw, id: nat, j: nat, k: nat)
    requires Near(g, id, j) && j <= k
    ensures Near(g, id, k)
  {
    if !Called(g, id) && !(j >= 4 && Queued(g.queue, id)) {
      var r :| r in g.pending && Carries(g.pending[r], id) && Rank(g.pending[r]) <= j;
      assert Rank(g.pending[r]) <= k;
    }
  }

  lemma SmallOperations(g: Gw, send: Send, p: Pending, env: Env)
    requires Low(g)
    ensures KeepsIfDone(g, QueuePending(g, send, env)) && KeepsIfDone(g, Request(g, p, env))
    ensures KeepsIfDone(g, SendPartial(g, send, env)) && KeepsIfDone(g, EncodeNow(g, send, env))
  {
  }

  lemma FullKeeps(g: Gw, send: Send, env: Env)
    requires Low(g)
    ensures KeepsIfDone(g, SendFull(g, send, env))
  {
    SmallOperations(g, send, Encode(send), env);
  }

  lemma StartsKeep(g: Gw, uri: Uri, payload: Payload, env: Env)
    requires Low(g)
    ensures KeepsIfDone(g, StartFull(g, uri, payload, env)) && KeepsIfDone(g, StartPartial(g, uri, payload, env))
  {
  }

  lemma {:induction false} SendToAllKeeps(g: Gw, peers: seq<(Uri, Env)>, payload: Payload)
    requires Low(g)
    ensures KeepsIfDone(g, SendToAll(g, peers, payload))
    decreases |peers|
  {
    hide StartFull;
    if peers != [] {
      StartsKeep(g, peers[0].0, payload, peers[0].1);
      var r := StartFull(g, peers[0].0, payload, peers[0].1);
      if r.Done? && r.ok {
        SendToAllKeeps(r.g, peers[1..], payload);
        var r2 := SendToAll(r.g, peers[1..], payload);
        if r2.Done? {
          KeepsTransitive(g, r.g, r2.g);
        }
      }
    }
  }

  lemma CallbackKeeps(g: Gw, p: Pending, response: Response, env: Env)
    requires Low(g)
    ensures KeepsIfDone(g, RunCallback(g, p, response, env))
  {
    hide StartFull;
    hide SendFull;
    hide QueuePending;
    hide Request;
    hide SendToAll;
    match p
    case Resolve(send) =>
      SmallOperations(g, send, p, env);
      if response.PeerFound? {
        FullKeeps(Told(g, send.id, response.uri), send.(target := FullLow(response.uri)), env);
      }
    case Encode(send) => SmallOperations(g, send, Transmit(send), env);
    case Transmit(send) => SmallOperations(g, send, p, env);
    case Decode(uri) =>
      if response.Decoded? && response.message.Ping? {
        StartsKeep(g, uri, response.message.pong, env);
      }
    case ReplyIncoming(uri, payload) => StartsKeep(g, uri, payload, env);
    case SendAllPeers(payload) =>
      if response.PeerList? {
        SendToAllKeeps(g, response.peers, payload);
      }
    case _ =>
  }

  lemma HandleKeeps(g: Gw, message: Drained)
    requires Low(g)
    ensures KeepsIfDone(g, HandleOne(g, message))
  {
    hide StartFull;
    hide StartPartial;
    match message
    case SendMessage(uri, payload, env) => StartsKeep(g, uri, payload, env);
    case Bootstrap(uri, payload, env) => StartsKeep(g, uri, payload, env);
    case HoldPeerRequested(uri, ping, env, publish) => StartsKeep(g, uri, ping, env);
    case _ =>
  }

  lemma {:induction false} HandleAllKeeps(g: Gw, messages: seq<Drained>)
    requires Low(g)
    ensures KeepsIfDone(g, HandleAll(g, messages))
    decreases |messages|
  {
    hide HandleOne;
    if messages != [] {
      HandleKeeps(g, messages[0]);
      var r := HandleOne(g, messages[0]);
      if r.Done? && r.ok {
        HandleAllKeeps(r.g, messages[1..]);
        var r2 := HandleAll(r.g, messages[1..]);
        if r2.Done? {
          KeepsTransitive(g, r.g, r2.g);
        }
      }
    }
  }

  // ----- What happens to an expired send in hand -----

  lemma LateWaits(g: Gw, send: Send, env: Env)
    requires g.clock > send.expiresAt
    ensures Called(QueuePending(g, send, env).g, send.id)
  {
    var g' := QueuePending(g, send, env).g;
    assert g'.calls[|g.calls|].id == send.id;
  }

  lemma RequestPends(g: Gw, p: Pending, env: Env)
    requires HasSend(p) && Request(g, p, env).Done?
    ensures Pends(Request(g, p, env).g, p.send.id, Rank(p))
  {
    var g' := Request(g, p, env).g;
    assert g.nextRequest in g'.pending && g'.pending[g.nextRequest] == p;
  }

  lemma LateFull(g: Gw, send: Send, env: Env)
    requires g.clock > send.expiresAt && SendFull(g, send, env).Done?
    ensures Near(SendFull(g, send, env).g, send.id, 2)
  {
    hide QueuePending;
    hide Request;
    var now := g.clock + env.d0;
    if MessageEncoding !in g.attached {
      LateWaits(g.(clock := now), send.(lastAttempt := now - 2 * SEND_RETRY_INTERVAL_MS), env.(d0 := env.d1));
    } else {
      RequestPends(Attempted(g.(clock := now), send.id), Encode(send.(lastAttempt := now)), env);
    }
  }

  lemma LateDispatch(g: Gw, send: Send, env: Env)
    requires g.clock > send.expiresAt && CheckDispatch(g, send, env).Done?
    ensures Near(CheckDispatch(g, send, env).g, send.id, 3)
  {
    hide QueuePending;
    hide Request;
    hide SendFull;
    var now := g.clock + env.d0;
    var g1, env1 := g.(clock := now), env.(d0 := env.d1, d1 := env.d2);
    if now - send.lastAttempt < SEND_RETRY_INTERVAL_MS {
      LateWaits(g1, send, env1);
    } else if send.target.PartialHigh? {
      var later := g1.clock + env1.d0;
      RequestPends(g1.(clock := later), Resolve(send.(lastAttempt := later)), env1);
    } else {
      LateFull(g1, send, env1);
      NearWeakens(SendFull(g1, send, env1).g, send.id, 2, 3);
    }
  }

  lemma LateCallback(g: Gw, p: Pending, response: Response, env: Env)
    requires HasSend(p) && g.clock > p.send.expiresAt && RunCallback(g, p, response, env).Done?
    ensures Near(RunCallback(g, p, response, env).g, p.send.id, Rank(p) - 1)
  {
    hide QueuePending;
    hide Request;
    hide SendFull;
    var send := p.send;
    if p.Resolve? && response.PeerFound? {
      LateFull(Told(g, send.id, response.uri), send.(target := FullLow(response.uri)), env);
    } else if p.Encode? && response.Encoded? {
      RequestPends(g, Transmit(send), env);
    } else if p.Transmit? && response.Sent? {
      var g' := RunCallback(g, p, response, env).g;
      assert g'.calls[|g.calls|].id == send.id;
    } else {
      LateWaits(g, send, env);
    }
  }

  // ----- Answers -----

  lemma InvLow(g: Gw, rest: seq<Send>)
    requires Inv(g, rest)
    ensures Low(g)
  {
  }

  lemma PendingExpiry(g: Gw, r: nat)
    requires Inv(g, []) && r in g.pending && HasSend(g.pending[r])
    ensures var send := g.pending[r].send;
            send.id < |g.history| && send.expiresAt == g.history[send.id].start + SEND_RETRY_TIMEOUT_MS
  {
    assert PendingOk(g, g.pending[r]);
  }

  /** A request that is not answered stays where it is. */
  lemma AnswerKeepsOthers(g: Gw, member: Member, answer: Answer)
    requires Low(g)
    ensures KeepsIfDone(g.(pending := g.pending - {answer.request}), AnswerOne(g, member, answer))
    ensures AnswerOne(g, member, answer) != Done(g, false) ==>
            answer.request in g.pending && Owner(g.pending[answer.request]) == member
  {
    hide RunCallback;
    var g1 := g.(pending := g.pending - {answer.request});
    if answer.request in g.pending && Owner(g.pending[answer.request]) == member {
      CallbackKeeps(g1, g.pending[answer.request], answer.response, answer.env);
    }
  }

  /** Answering the request of an expired send brings it one step closer. */
  lemma AnswerServes(g: Gw, member: Member, answer: Answer, id: nat)
    requires Inv(g, []) && Late(g, id) && answer.request in g.pending && Carries(g.pending[answer.request], id)
    requires Owner(g.pending[answer.request]) == member && AnswerOne(g, member, answer).Done?
    ensures Near(AnswerOne(g, member, answer).g, id, Rank(g.pending[answer.request]) - 1)
  {
    hide RunCallback;
    hide Inv;
    PendingExpiry(g, answer.request);
    LateCallback(g.(pending := g.pending - {answer.request}), g.pending[answer.request], answer.response, answer.env);
  }

  /** No answer takes an expired send further away. */
  lemma AnswerKeepsNear(g: Gw, member: Member, answer: Answer, id: nat, k: nat)
    requires Inv(g, []) && Late(g, id) && Near(g, id, k) && AnswerOne(g, member, answer).Done?
    ensures Near(AnswerOne(g, member, answer).g, id, k)
  {
    hide AnswerOne;
    hide Inv;
    InvLow(g, []);
    AnswerKeepsOthers(g, member, answer);
    var r := answer.request;
    var g1, r' := g.(pending := g.pending - {r}), AnswerOne(g, member, answer);
    if r' == Done(g, false) {
    } else if Near(g1, id, k) {
      KeepsNear(g1, r'.g, id, k);
    } else {
      OnlyHere(g, r, id, k);
      AnswerServes(g, member, answer, id);
      NearWeakens(r'.g, id, Rank(g.pending[r]) - 1, k);
    }
  }

  lemma OnlyHere(g: Gw, r: nat, id: nat, k: nat)
    requires Near(g, id, k) && !Near(g.(pending := g.pending - {r}), id, k)
    ensures r in g.pending && Carries(g.pending[r], id) && Rank(g.pending[r]) <= k
  {
    assert !Called(g.(pending := g.pending - {r}), id) && !Called(g, id);
    var q :| q in g.pending && Carries(g.pending[q], id) && Rank(g.pending[q]) <= k;
    if q != r {
      OthersPend(g, r, q, id, k);
    }
  }

  lemma OthersPend(g: Gw, r: nat, q: nat, id: nat, k: nat)
    requires q != r && q in g.pending && Carries(g.pending[q], id) && Rank(g.pending[q]) <= k
    ensures Near(g.(pending := g.pending - {r}), id, k)
  {
    assert q in g.pending - {r};
  }

  lemma LateStays(g: Gw, g': Gw, id: nat)
    requires Late(g, id) && Extends(g, g')
    ensures Late(g', id)
  {
  }

  lemma {:induction false} AnswersKeepNear(g: Gw, member: Member, answers: seq<Answer>, id: nat, k: nat)
    requires Inv(g, []) && g.attached == ALL_MEMBERS - {member} && Late(g, id) && Near(g, id, k)
    requires AnswerAll(g, member, answers).Done?
    ensures Near(AnswerAll(g, member, answers).g, id, k)
    decreases |answers|
  {
    hide Inv;
    hide AnswerOne;
    hide Near;
    hide Late;
    if answers != [] {
      AnswersOne(g, member, answers[0]);
      AnswerKeepsNear(g, member, answers[0], id, k);
      var r := AnswerOne(g, member, answers[0]);
      if r.ok {
        LateStays(g, r.g, id);
        AnswersKeepNear(r.g, member, answers[1..], id, k);
      }
    }
  }

  predicate Answered(answers: seq<Answer>, r: nat) {
    exists i :: 0 <= i < |answers| && answers[i].request == r
  }

  /** A member's callbacks, all successful, serve an expired send whose request is answered. */
  lemma {:induction false} AnswersServe(g: Gw, member: Member, answers: seq<Answer>, id: nat, r: nat)
    requires Inv(g, []) && g.attached == ALL_MEMBERS - {member} && Late(g, id)
    requires r in g.pending && Carries(g.pending[r], id) && Owner(g.pending[r]) == member
    requires AnswerAll(g, member, answers).Done? && AnswerAll(g, member, answers).ok
    ensures var r' := AnswerAll(g, member, answers).g;
            if Answered(answers, r) then Near(r', id, Rank(g.pending[r]) - 1)
            else r in r'.pending && r'.pending[r] == g.pending[r]
    decreases |answers|
  {
    hide Inv;
    hide AnswerOne;
    hide Near;
    hide Late;
    if answers != [] {
      var first := AnswerOne(g, member, answers[0]);
      AnswersOne(g, member, answers[0]);
      LateStays(g, first.g, id);
      if answers[0].request == r {
        assert Answered(answers, r);
        AnswerServes(g, member, answers[0], id);
        AnswersKeepNear(first.g, member, answers[1..], id, Rank(g.pending[r]) - 1);
      } else {
        InvLow(g, []);
        AnswerKeepsOthers(g, member, answers[0]);
        AnswersServe(first.g, member, answers[1..], id, r);
        AnsweredLater(answers, r);
      }
    }
  }

  lemma AnsweredLater(answers: seq<Answer>, r: nat)
    requires answers != [] && answers[0].request != r
    ensures Answered(answers, r) <==> Answered(answers[1..], r)
  {
    if Answered(answers, r) {
      var i :| 0 <= i < |answers| && answers[i].request == r;
      assert answers[1..][i - 1].request == r;
    }
  }

  /** Another member's callbacks leave the request alone. */
  lemma {:induction false} AnswersKeepPending(g: Gw, member: Member, answers: seq<Answer>, r: nat)
    requires Inv(g, []) && g.attached == ALL_MEMBERS - {member} && r in g.pending && Owner(g.pending[r]) != member
    requires AnswerAll(g, member, answers).Done? && AnswerAll(g, member, answers).ok
    ensures var g' := AnswerAll(g, member, answers).g; r in g'.pending && g'.pending[r] == g.pending[r]
    decreases |answers|
  {
    hide Inv;
    hide AnswerOne;
    if answers != [] {
      var first := AnswerOne(g, member, answers[0]);
      AnswersOne(g, member, answers[0]);
      InvLow(g, []);
      AnswerKeepsOthers(g, member, answers[0]);
      AnswersKeepPending(first.g, member, answers[1..], r);
    }
  }

  // ----- Drains -----

  lemma QueuedExpiry(g: Gw, sends: seq<Send>)
    requires Inv(g, sends) && sends != []
    ensures var send := sends[0];
            send.id < |g.history| && send.expiresAt == g.history[send.id].start + SEND_RETRY_TIMEOUT_MS
  {
    assert QueuedOk(g, sends[0]);
  }

  lemma DispatchKeeps(g: Gw, send: Send, env: Env)
    requires Low(g)
    ensures KeepsIfDone(g, CheckDispatch(g, send, env))
  {
    hide SendFull;
    hide SendPartial;
    hide QueuePending;
    var g1, env1 := g.(clock := g.clock + env.d0), env.(d0 := env.d1, d1 := env.d2);
    SmallOperations(g1, send, Encode(send), env1);
    FullKeeps(g1, send, env1);
  }

  /** A drain, whatever errors it meets, leaves no expired send in the queue, takes none further away, and
      leaves the trackers alone. */
  lemma {:induction false} DrainServes(g: Gw, sends: seq<Send>, envs: seq<Env>, ok: bool, id: nat)
    requires Inv(g, sends) && InnerDht in g.attached && Late(g, id)
    ensures var r := DispatchAll(g, sends, envs, ok);
            r.Done? && Keeps(g, r.g) && (Queued(sends, id) ==> Near(r.g, id, 3))
    decreases |sends|
  {
    hide Inv;
    hide CheckDispatch;
    hide Near;
    hide Late;
    hide Extends;
    InvLow(g, sends);
    if sends != [] {
      var send, rest, env := sends[0], sends[1..], EnvAt(envs, 0);
      var r := CheckDispatch(g, send, env);
      OneDispatch(g, sends, env);
      LateStays(g, r.g, id);
      var envs' := if envs == [] then [] else envs[1..];
      DrainServes(r.g, rest, envs', ok && r.ok, id);
      var g' := DispatchAll(r.g, rest, envs', ok && r.ok).g;
      KeepsTransitive(g, r.g, g');
      if send.id == id {
        FirstServed(g, sends, env, id);
        KeepsNear(r.g, g', id, 3);
      } else {
        QueuedLater(sends, id);
      }
    }
  }

  lemma OneDispatch(g: Gw, sends: seq<Send>, env: Env)
    requires Inv(g, sends) && sends != [] && InnerDht in g.attached
    ensures var r := CheckDispatch(g, sends[0], env);
            r.Done? && Inv(r.g, sends[1..]) && Extends(g, r.g) && Keeps(g, r.g) && InnerDht in r.g.attached
  {
    hide Linear;
    hide CheckDispatch;
    assert [sends[0]] + sends[1..] == sends;
    TimedTail(g, sends);
    Dispatches(g, sends[0], sends[1..], env);
    InvLow(g, sends);
    DispatchKeeps(g, sends[0], env);
  }

  lemma FirstServed(g: Gw, sends: seq<Send>, env: Env, id: nat)
    requires Inv(g, sends) && sends != [] && sends[0].id == id && Late(g, id)
    requires CheckDispatch(g, sends[0], env).Done?
    ensures Near(CheckDispatch(g, sends[0], env).g, id, 3)
  {
    hide CheckDispatch;
    hide Inv;
    QueuedExpiry(g, sends);
    LateDispatch(g, sends[0], env);
  }

  lemma QueuedLater(sends: seq<Send>, id: nat)
    requires sends != [] && sends[0].id != id
    ensures Queued(sends, id) <==> Queued(sends[1..], id)
  {
    if Queued(sends, id) {
      var i :| 0 <= i < |sends| && sends[i].id == id;
      assert sends[1..][i - 1].id == id;
    }
  }

  lemma PendingSendsServe(g: Gw, envs: seq<Env>, id: nat, k: nat)
    requires Inv(g, []) && InnerDht in g.attached && Late(g, id)
    ensures var r := ProcessPendingSends(g, envs);
            r.Done? && (Near(g, id, k) ==> Near(r.g, id, if k >= 4 then 3 else k)) &&
            forall q :: q in g.pending ==> q in r.g.pending && r.g.pending[q] == g.pending[q]
  {
    hide Inv;
    hide DispatchAll;
    hide Near;
    var g1 := g.(queue := []);
    EmptyQueue(g);
    DrainServes(g1, g.queue, envs, true, id);
    var g' := ProcessPendingSends(g, envs).g;
    if Near(g, id, k) && !Queued(g.queue, id) {
      NotQueued(g, id, k);
      KeepsNear(g1, g', id, if k >= 4 then 3 else k);
    } else if Near(g, id, k) && k < 4 {
      NotQueuedNear(g, id, k);
      KeepsNear(g1, g', id, k);
    }
  }

  lemma EmptyQueue(g: Gw)
    requires Inv(g, [])
    ensures Inv(g.(queue := []), g.queue)
  {
    var g1 := g.(queue := []);
    assert Ids([]) == [];
    assert forall id: nat :: Places(g1, g.queue, id) == Places(g, [], id);
    forall i | 0 <= i < |g.queue| ensures QueuedOk(g1, g.queue[i]) {
      StillQueued(g, g1, g.queue[i]);
    }
    TimedGrows(g, g1, []);
  }

  lemma NotQueuedNear(g: Gw, id: nat, k: nat)
    requires Near(g, id, k) && k < 4
    ensures Near(g.(queue := []), id, k)
  {
    var g1 := g.(queue := []);
    assert Called(g, id) ==> Called(g1, id);
    assert Pends(g, id, k) ==> Pends(g1, id, k);
  }

  lemma NotQueued(g: Gw, id: nat, k: nat)
    requires Near(g, id, k) && !Queued(g.queue, id)
    ensures Near(g.(queue := []), id, if k >= 4 then 3 else k)
  {
    var g1 := g.(queue := []);
    assert Called(g, id) ==> Called(g1, id);
    if r :| r in g.pending && Carries(g.pending[r], id) && Rank(g.pending[r]) <= k {
      assert r in g1.pending && Rank(g1.pending[r]) <= 3;
    }
  }

  // ----- Phases -----

  /** A phase takes no expired send further away. */
  lemma PhaseKeepsNear(g: Gw, phase: Phase, id: nat, k: nat)
    requires Inv(g, []) && g.attached == ALL_MEMBERS && Late(g, id) && Near(g, id, k) && RunPhase(g, phase).Done?
    ensures Near(RunPhase(g, phase).g, id, k)
  {
    hide Inv;
    hide Late;
    hide Near;
    InvLow(g, []);
    match phase
    case Callbacks(member, answers) =>
      var g1 := g.(attached := g.attached - {member});
      Recell(g, g1.attached);
      SameNear(g, g1, id, k);
      AnswersKeepNear(g1, member, answers, id, k);
      var g2 := AnswerAll(g1, member, answers).g;
      SameNear(g2, g2.(attached := g2.attached + {member}), id, k);
    case Messages(messages) =>
      HandleAllKeeps(g, messages);
      KeepsNear(g, HandleAll(g, messages).g, id, k);
    case PendingSends(envs) =>
      Cell(InnerDht);
      PendingSendsServe(g, envs, id, k);
      NearWeakens(ProcessPendingSends(g, envs).g, id, if k >= 4 then 3 else k, k);
    case Refresh(env) =>
      RequestKeepsNear(g, RefreshThisPeer, env, id, k);
  }

  lemma SameNear(g: Gw, g': Gw, id: nat, k: nat)
    requires g.queue == g'.queue && g.pending == g'.pending && g.calls == g'.calls
    requires g.clock == g'.clock && g.history == g'.history
    ensures Near(g, id, k) <==> Near(g', id, k)
    ensures Late(g, id) <==> Late(g', id)
  {
    assert Called(g, id) <==> Called(g', id);
    assert Pends(g, id, k) <==> Pends(g', id, k);
  }

  lemma RequestKeepsNear(g: Gw, p: Pending, env: Env, id: nat, k: nat)
    requires Low(g) && Near(g, id, k) && Request(g, p, env).Done?
    ensures Near(Request(g, p, env).g, id, k)
  {
    hide Near;
    KeepsNear(g, Request(g, p, env).g, id, k);
  }

  lemma PhaseRuns(g: Gw, phase: Phase, id: nat)
    requires Inv(g, []) && g.attached == ALL_MEMBERS && Late(g, id) && RunPhase(g, phase).Done?
    ensures var g' := RunPhase(g, phase).g; Inv(g', []) && g'.attached == ALL_MEMBERS && Late(g', id)
  {
    hide Inv;
    hide RunPhase;
    hide Late;
    assert [phase][1..] == [];
    PhasesRun(g, [phase]);
    var r := RunPhase(g, phase);
    assert RunPhases(r.g, []) == Done(r.g, true);
    LateStays(g, r.g, id);
  }

  lemma {:induction false} PhasesKeepNear(g: Gw, phases: seq<Phase>, id: nat, k: nat)
    requires Inv(g, []) && g.attached == ALL_MEMBERS && Late(g, id) && Near(g, id, k) && RunPhases(g, phases).Done?
    ensures Near(RunPhases(g, phases).g, id, k)
    decreases |phases|
  {
    hide Inv;
    hide RunPhase;
    hide Late;
    hide Near;
    if phases != [] {
      PhaseKeepsNear(g, phases[0], id, k);
      PhaseRuns(g, phases[0], id);
      var r := RunPhase(g, phases[0]);
      if r.ok {
        PhasesKeepNear(r.g, phases[1..], id, k);
      }
    }
  }

  /** Phases that all succeed and drain the queue leave no expired send in it. */
  lemma {:induction false} PhasesDrain(g: Gw, phases: seq<Phase>, id: nat, i: nat)
    requires Inv(g, []) && g.attached == ALL_MEMBERS && Late(g, id) && Near(g, id, 4)
    requires i < |phases| && phases[i].PendingSends? && RunPhases(g, phases).Done? && RunPhases(g, phases).ok
    ensures Near(RunPhases(g, phases).g, id, 3)
    decreases |phases|
  {
    hide Inv;
    hide RunPhase;
    hide Late;
    hide Near;
    var r := RunPhase(g, phases[0]);
    PhaseRuns(g, phases[0], id);
    if i == 0 {
      DrainPhase(g, phases[0].envs, id);
      PhasesKeepNear(r.g, phases[1..], id, 3);
    } else {
      PhaseKeepsNear(g, phases[0], id, 4);
      PhasesDrain(r.g, phases[1..], id, i - 1);
    }
  }

  lemma DrainPhase(g: Gw, envs: seq<Env>, id: nat)
    requires Inv(g, []) && g.attached == ALL_MEMBERS && Late(g, id) && Near(g, id, 4)
    ensures var r := RunPhase(g, PendingSends(envs)); r.Done? && Near(r.g, id, 3)
  {
    hide Inv;
    hide Late;
    hide Near;
    hide ProcessPendingSends;
    Cell(InnerDht);
    PendingSendsServe(g, envs, id, 4);
  }

  /** The phase answers request `r` of `member`. */
  predicate Serves(phase: Phase, member: Member, r: nat) {
    phase.Callbacks? && phase.member == member && Answered(phase.answers, r)
  }

  lemma PhaseServes(g: Gw, phase: Phase, id: nat, r: nat)
    requires Inv(g, []) && g.attached == ALL_MEMBERS && Late(g, id)
    requires r in g.pending && Carries(g.pending[r], id) && RunPhase(g, phase).Done? && RunPhase(g, phase).ok
    ensures var g' := RunPhase(g, phase).g;
            if Serves(phase, Owner(g.pending[r]), r) then Near(g', id, Rank(g.pending[r]) - 1)
            else r in g'.pending && g'.pending[r] == g.pending[r]
  {
    hide Inv;
    hide Late;
    hide Near;
    hide Answered;
    InvLow(g, []);
    match phase
    case Callbacks(member, answers) =>
      var g1 := g.(attached := g.attached - {member});
      Recell(g, g1.attached);
      SameNear(g, g1, id, 0);
      var g2 := AnswerAll(g1, member, answers).g;
      if Owner(g.pending[r]) == member {
        AnswersServe(g1, member, answers, id, r);
        SameNear(g2, g2.(attached := g2.attached + {member}), id, Rank(g.pending[r]) - 1);
      } else {
        AnswersKeepPending(g1, member, answers, r);
      }
    case Messages(messages) =>
      HandleAllKeeps(g, messages);
    case PendingSends(envs) =>
      Cell(InnerDht);
      PendingSendsServe(g, envs, id, 0);
    case Refresh(env) =>
  }

  /** Phases that all succeed serve an expired send if one of them answers its request. */
  lemma {:induction false} PhasesServe(g: Gw, phases: seq<Phase>, id: nat, r: nat, i: nat)
    requires Inv(g, []) && g.attached == ALL_MEMBERS && Late(g, id)
    requires r in g.pending && Carries(g.pending[r], id)
    requires i < |phases| && Serves(phases[i], Owner(g.pending[r]), r)
    requires RunPhases(g, phases).Done? && RunPhases(g, phases).ok
    ensures Near(RunPhases(g, phases).g, id, Rank(g.pending[r]) - 1)
    decreases |phases|
  {
    hide Inv;
    hide RunPhase;
    hide Late;
    hide Near;
    hide Serves;
    var next := RunPhase(g, phases[0]);
    PhaseRuns(g, phases[0], id);
    PhaseServes(g, phases[0], id, r);
    if Serves(phases[0], Owner(g.pending[r]), r) {
      PhasesKeepNear(next.g, phases[1..], id, Rank(g.pending[r]) - 1);
    } else {
      PhasesServe(next.g, phases[1..], id, r, i - 1);
    }
  }

  // ----- Process calls -----

  /** The call comes through without an error, and if the send waits for an answer, its tracker gets one. */
  ghost predicate Served(g: Gw, input: Input, id: nat) {
    ProcessConcrete(g, input).Done? && ProcessConcrete(g, input).ok &&
    forall r :: r in g.pending && Carries(g.pending[r], id) ==>
      Answered(AnswersOf(input, Owner(g.pending[r])), r)
  }

  function AnswersOf(input: Input, member: Member): seq<Answer> {
    match member
    case EndpointSelf => input.selfAnswers
    case InnerTransport => input.transportAnswers
    case MessageEncoding => input.encodingAnswers
    case InnerDht => input.dhtAnswers
  }

  lemma PhaseOf(input: Input, member: Member) returns (i: nat)
    ensures i < |Phases(input)| && Phases(input)[i] == Callbacks(member, AnswersOf(input, member))
  {
    match member
    case EndpointSelf => i := 0;
    case InnerTransport => i := 2;
    case MessageEncoding => i := 4;
    case InnerDht => i := 7;
  }

  /** A call that serves an expired send brings it at least one step closer to its end. */
  lemma CallServes(g: Gw, input: Input, id: nat, k: nat)
    requires Inv(g, []) && g.attached == ALL_MEMBERS && Late(g, id) && Near(g, id, k) && 0 < k <= 4
    requires Served(g, input, id)
    ensures Near(ProcessConcrete(g, input).g, id, k - 1)
  {
    hide Inv;
    hide RunPhases;
    hide Late;
    hide Answered;
    hide Phases;
    var phases := Phases(input);
    if Called(g, id) {
      PhasesKeepNear(g, phases, id, k - 1);
    } else if r :| r in g.pending && Carries(g.pending[r], id) && Rank(g.pending[r]) <= k {
      var i := PhaseOf(input, Owner(g.pending[r]));
      PhasesServe(g, phases, id, r, i);
      NearWeakens(RunPhases(g, phases).g, id, Rank(g.pending[r]) - 1, k - 1);
    } else {
      SixthDrains(input);
      PhasesDrain(g, phases, id, 5);
    }
  }

  lemma SixthDrains(input: Input)
    ensures |Phases(input)| == 9 && Phases(input)[5].PendingSends?
  {
  }

  /** Every callback not yet called is at most four steps away. */
  lemma SomewhereNear(g: Gw, id: nat)
    requires Inv(g, []) && id < |g.history|
    ensures Near(g, id, 4)
  {
    assert Places(g, [], id) == 1 && Ids([]) == [];
    if id in multiset(CallIds(g.calls)) {
      var i :| 0 <= i < |g.calls| && CallIds(g.calls)[i] == id;
      assert g.calls[i].id == id;
    } else if id in multiset(Ids(g.queue)) {
      var i :| 0 <= i < |g.queue| && Ids(g.queue)[i] == id;
      assert g.queue[i].id == id;
    } else {
      assert Holders(g.pending, id) != {};
      var r :| r in Holders(g.pending, id);
      assert Carries(g.pending[r], id) && Rank(g.pending[r]) <= 4;
    }
  }

  /** How many of the calls serve the send. */
  ghost function ServedCalls(g: Gw, inputs: seq<Input>, id: nat): nat
    requires Run(g, inputs).Done?
    decreases |inputs|
  {
    if inputs == [] then 0
    else (if Served(g, inputs[0], id) then 1 else 0) + ServedCalls(ProcessConcrete(g, inputs[0]).g, inputs[1..], id)
  }

  lemma {:induction false} ServedCallsEnd(g: Gw, inputs: seq<Input>, id: nat, k: nat)
    requires Inv(g, []) && g.attached == ALL_MEMBERS && Late(g, id) && Near(g, id, k) && k <= 4
    requires Run(g, inputs).Done? && ServedCalls(g, inputs, id) >= k
    ensures Called(Run(g, inputs).g, id)
    decreases |inputs|
  {
    hide Inv;
    hide ProcessConcrete;
    hide Late;
    hide Called;
    hide Served;
    if inputs == [] {
      NearZero(g, id);
    } else {
      CallRuns(g, inputs[0], id);
      var next := ProcessConcrete(g, inputs[0]).g;
      if k > 0 && Served(g, inputs[0], id) {
        CallServes(g, inputs[0], id, k);
        ServedCallsEnd(next, inputs[1..], id, k - 1);
      } else {
        CallKeepsNear(g, inputs[0], id, k);
        ServedCallsEnd(next, inputs[1..], id, k);
      }
    }
  }

  lemma NearZero(g: Gw, id: nat)
    requires Near(g, id, 0)
    ensures Called(g, id)
  {
  }

  /** A call that does not serve an expired send, failed or not, takes it no further away. */
  lemma CallKeepsNear(g: Gw, input: Input, id: nat, k: nat)
    requires Inv(g, []) && g.attached == ALL_MEMBERS && Late(g, id) && Near(g, id, k)
    requires ProcessConcrete(g, input).Done?
    ensures Near(ProcessConcrete(g, input).g, id, k)
  {
    hide Inv;
    hide RunPhases;
    PhasesKeepNear(g, Phases(input), id, k);
  }

  lemma CallRuns(g: Gw, input: Input, id: nat)
    requires Inv(g, []) && g.attached == ALL_MEMBERS && Late(g, id) && ProcessConcrete(g, input).Done?
    ensures var g' := ProcessConcrete(g, input).g; Inv(g', []) && g'.attached == ALL_MEMBERS && Late(g', id)
  {
    hide Inv;
    hide RunPhases;
    PhasesRun(g, Phases(input));
    LateStays(g, ProcessConcrete(g, input).g, id);
  }

  /** In every run: once a send has expired, it has ended, its callback called, as soon as four further
      process calls came through and answered whatever the send was waiting for, wherever the send was
      before and whatever other calls, failed ones included, come between. */
  lemma ExpiredSendsEnd(inputs: seq<Input>, more: seq<Input>, id: nat)
    requires Run(INITIAL, inputs).Done? && Late(Run(INITIAL, inputs).g, id)
    requires Run(Run(INITIAL, inputs).g, more).Done? && ServedCalls(Run(INITIAL, inputs).g, more, id) >= 4
    ensures Called(Run(Run(INITIAL, inputs).g, more).g, id)
  {
    hide Inv;
    hide Run;
    hide ServedCalls;
    hide Near;
    hide Called;
    InitialIsFine();
    EveryRunIsGood(INITIAL, inputs);
    var g := Run(INITIAL, inputs).g;
    SomewhereNear(g, id);
    ServedCallsEnd(g, more, id, 4);
  }

  // ----- Three calls are not enough -----

  const AN_HOUR := 3600000

  /** Two sends start and neither address can be resolved; when the second hears so an hour has passed,
      and the first is still waiting in the queue. */
  function Stranding(uri: Uri, payload: Payload): Input {
    Input([], [SendMessage(uri, payload, AT_ONCE), SendMessage(uri, payload, AT_ONCE)], [], [], [], [], AT_ONCE,
          [Answer(0, Failed, AT_ONCE), Answer(1, Failed, Env(AN_HOUR, 0, 0, false))], [])
  }

  function Stranded(uri: Uri, payload: Payload): Gw {
    Gw(ALL_MEMBERS, [Waiting(uri, payload)], map[2 := RefreshThisPeer], [Call(1, Timeout, AN_HOUR)], 3, AN_HOUR,
       [Unsent(uri, payload), Unsent(uri, payload)])
  }

  function Unsent(uri: Uri, payload: Payload): History {
    History(0, payload, PartialHigh(uri), None, [])
  }

  function Waiting(uri: Uri, payload: Payload): Send {
    Send(0, PartialHigh(uri), payload, 0, SEND_RETRY_TIMEOUT_MS)
  }

  /** A call that brings nothing but the drain of the queue. */
  const QUIET := Input([], [], [], [], [], [], AT_ONCE, [], [])

  function Refreshed(g: Gw): Gw {
    g.(pending := g.pending[g.nextRequest := RefreshThisPeer], nextRequest := g.nextRequest + 1)
  }

  /** The send after the drain, after its address was found, and after it was encoded. */
  function Looking(uri: Uri, payload: Payload): Gw {
    var g := Stranded(uri, payload);
    Refreshed(g.(queue := [], nextRequest := 4,
                 pending := g.pending[3 := Resolve(Waiting(uri, payload).(lastAttempt := AN_HOUR))]))
  }

  function Resolved(uri: Uri, low: Uri, payload: Payload): Send {
    Waiting(uri, payload).(lastAttempt := AN_HOUR, target := FullLow(low))
  }

  function Encoding(uri: Uri, low: Uri, payload: Payload): Gw {
    var g := Refreshed(Looking(uri, payload));
    g.(pending := (g.pending - {3})[6 := Encode(Resolved(uri, low, payload))], nextRequest := 7,
       history := [Unsent(uri, payload).(told := Some(low), attempts := [AN_HOUR]), Unsent(uri, payload)])
  }

  function Transmitting(uri: Uri, low: Uri, payload: Payload): Gw {
    var g := Encoding(uri, low, payload);
    Refreshed(g.(pending := (g.pending - {6})[7 := Transmit(Resolved(uri, low, payload))], nextRequest := 8))
  }

  function Finding(low: Uri): Input {
    QUIET.(dhtAnswers := [Answer(3, PeerFound(low), AT_ONCE)])
  }

  const ENCODING_DONE := QUIET.(encodingAnswers := [Answer(6, Encoded, AT_ONCE)])

  lemma IdlePhases(g: Gw, member: Member)
    requires g.attached == ALL_MEMBERS
    ensures RunPhase(g, Messages([])) == Done(g, true)
    ensures RunPhase(g, Callbacks(member, [])) == Done(g, true)
    ensures RunPhase(g, Refresh(AT_ONCE)) == Done(Refreshed(g), true)
    ensures g.queue == [] ==> RunPhase(g, PendingSends([])) == Done(g, true)
  {
    Cell(member);
    Cell(InnerDht);
    assert g.attached - {member} + {member} == g.attached;
  }

  lemma TwoMessages(g: Gw, first: Drained, second: Drained, g1: Gw, g2: Gw)
    requires HandleOne(g, first) == Done(g1, true) && HandleOne(g1, second) == Done(g2, true)
    ensures RunPhase(g, Messages([first, second])) == Done(g2, true)
  {
    hide HandleOne;
    assert [first, second][1..] == [second];
    OneMessage(g1, second, g2);
  }

  lemma TwoAnswers(g: Gw, member: Member, first: Answer, second: Answer, g1: Gw, g2: Gw)
    requires g.attached == ALL_MEMBERS && g2.attached == ALL_MEMBERS - {member}
    requires AnswerOne(g.(attached := ALL_MEMBERS - {member}), member, first) == Done(g1, true)
    requires AnswerOne(g1, member, second) == Done(g2, true)
    ensures RunPhase(g, Callbacks(member, [first, second])) == Done(g2.(attached := ALL_MEMBERS), true)
  {
    hide AnswerOne;
    Cell(member);
    assert [first, second][1..] == [second] && [second][1..] == [];
    assert AnswerAll(g2, member, []) == Done(g2, true);
    assert AnswerAll(g1, member, [second]) == Done(g2, true);
    assert ALL_MEMBERS - {member} + {member} == ALL_MEMBERS;
  }

  lemma StrandsOne(uri: Uri, payload: Payload)
    ensures ProcessConcrete(INITIAL, Stranding(uri, payload)) == Done(Stranded(uri, payload), true)
  {
    var w, h := Waiting(uri, payload), Unsent(uri, payload);
    var g0 := INITIAL.(pending := map[0 := Resolve(w), 1 := Resolve(w.(id := 1))], nextRequest := 2, history := [h, h]);
    StartsTwo(uri, payload, g0);
    NeitherResolves(uri, payload, Refreshed(g0));
    IdlePhases(g0, MessageEncoding);
    hide RunPhase;
    InSequence(INITIAL, g0, g0, g0, Refreshed(g0), Stranded(uri, payload), Stranding(uri, payload));
  }

  lemma StartsOne(g: Gw, uri: Uri, payload: Payload)
    requires g.attached == ALL_MEMBERS
    ensures HandleOne(g, SendMessage(uri, payload, AT_ONCE)) ==
              Done(g.(history := g.history + [History(g.clock, payload, PartialHigh(uri), None, [])],
                      pending := g.pending[g.nextRequest :=
                        Resolve(Send(|g.history|, PartialHigh(uri), payload, g.clock,
                                     g.clock + SEND_RETRY_TIMEOUT_MS))],
                      nextRequest := g.nextRequest + 1), true)
  {
    Cell(InnerDht);
  }

  lemma StartsTwo(uri: Uri, payload: Payload, g0: Gw)
    requires var w, h := Waiting(uri, payload), Unsent(uri, payload);
             g0 == INITIAL.(pending := map[0 := Resolve(w), 1 := Resolve(w.(id := 1))], nextRequest := 2,
                            history := [h, h])
    ensures RunPhase(INITIAL, Messages(Stranding(uri, payload).parentMessages)) == Done(g0, true)
  {
    hide RunPhase;
    hide HandleOne;
    var message, w, h := SendMessage(uri, payload, AT_ONCE), Waiting(uri, payload), Unsent(uri, payload);
    var g1 := INITIAL.(pending := map[0 := Resolve(w)], nextRequest := 1, history := [h]);
    assert INITIAL.pending[0 := Resolve(w)] == g1.pending && [] + [h] == [h] && [h] + [h] == [h, h];
    assert g1.pending[1 := Resolve(w.(id := 1))] == g0.pending;
    StartsOne(INITIAL, uri, payload);
    StartsOne(g1, uri, payload);
    TwoMessages(INITIAL, message, message, g1, g0);
  }

  lemma NeitherResolves(uri: Uri, payload: Payload, g: Gw)
    requires var w, h := Waiting(uri, payload), Unsent(uri, payload);
             g == INITIAL.(pending := map[0 := Resolve(w), 1 := Resolve(w.(id := 1)), 2 := RefreshThisPeer],
                           nextRequest := 3, history := [h, h])
    ensures RunPhase(g, Callbacks(InnerDht, Stranding(uri, payload).dhtAnswers)) ==
            Done(Stranded(uri, payload), true)
  {
    var out, w := ALL_MEMBERS - {InnerDht}, Waiting(uri, payload);
    var first, second := Answer(0, Failed, AT_ONCE), Answer(1, Failed, Env(AN_HOUR, 0, 0, false));
    var g1 := g.(attached := out, pending := map[1 := Resolve(w.(id := 1)), 2 := RefreshThisPeer], queue := [w]);
    assert g.pending - {0} == g1.pending && [] + [w] == [w];
    assert AnswerOne(g.(attached := out), InnerDht, first) == Done(g1, true);
    var g2 := Stranded(uri, payload).(attached := out);
    assert g1.pending - {1} == g2.pending && [] + g2.calls == g2.calls;
    assert AnswerOne(g1, InnerDht, second) == Done(g2, true);
    hide RunPhase;
    hide AnswerOne;
    TwoAnswers(g, InnerDht, first, second, g1, g2);
  }

  lemma FirstServing(uri: Uri, payload: Payload)
    ensures ProcessConcrete(Stranded(uri, payload), QUIET) == Done(Looking(uri, payload), true)
  {
    var g, send := Stranded(uri, payload), Waiting(uri, payload);
    var g2 := g.(queue := [], pending := g.pending[3 := Resolve(send.(lastAttempt := AN_HOUR))], nextRequest := 4);
    Cell(InnerDht);
    assert CheckDispatch(g.(queue := []), send, AT_ONCE) == Done(g2, true);
    assert DispatchAll(g.(queue := []), [send], [], true) == Done(g2, true) by {
      assert [send][1..] == [];
      assert DispatchAll(g2, [], [], true) == Done(g2, true);
    }
    assert RunPhase(g, PendingSends([])) == Done(g2, true);
    IdlePhases(g, MessageEncoding);
    IdlePhases(g2, InnerDht);
    IdlePhases(Refreshed(g2), InnerDht);
    hide RunPhase;
    InSequence(g, g, g, g2, Refreshed(g2), Refreshed(g2), QUIET);
  }

  lemma SecondServing(uri: Uri, low: Uri, payload: Payload)
    ensures ProcessConcrete(Looking(uri, payload), Finding(low)) == Done(Encoding(uri, low, payload), true)
  {
    var g := Looking(uri, payload);
    var g3, g4 := Refreshed(g), Encoding(uri, low, payload);
    var h := Unsent(uri, payload);
    var out := ALL_MEMBERS - {InnerDht};
    Cell(MessageEncoding);
    assert [] + [AN_HOUR] == [AN_HOUR];
    assert g.history[0 := h.(told := Some(low), attempts := [AN_HOUR])] == g4.history;
    var send := Waiting(uri, payload).(lastAttempt := AN_HOUR);
    assert g3.pending[3] == Resolve(send);
    assert AnswerOne(g3.(attached := out), InnerDht, Answer(3, PeerFound(low), AT_ONCE)) ==
           Done(g4.(attached := out), true);
    OneAnswer(g3, InnerDht, Answer(3, PeerFound(low), AT_ONCE), g4.(attached := out));
    IdlePhases(g, MessageEncoding);
    hide RunPhase;
    InSequence(g, g, g, g, g3, g4, Finding(low));
  }

  lemma ThirdServing(uri: Uri, low: Uri, payload: Payload)
    ensures ProcessConcrete(Encoding(uri, low, payload), ENCODING_DONE) == Done(Transmitting(uri, low, payload), true)
  {
    var g := Encoding(uri, low, payload);
    var g1 := g.(pending := (g.pending - {6})[7 := Transmit(Resolved(uri, low, payload))], nextRequest := 8);
    var out := ALL_MEMBERS - {MessageEncoding};
    Cell(InnerTransport);
    assert AnswerOne(g.(attached := out), MessageEncoding, Answer(6, Encoded, AT_ONCE)) ==
           Done(g1.(attached := out), true);
    OneAnswer(g, MessageEncoding, Answer(6, Encoded, AT_ONCE), g1.(attached := out));
    IdlePhases(g, MessageEncoding);
    IdlePhases(g1, MessageEncoding);
    IdlePhases(Refreshed(g1), InnerDht);
    hide RunPhase;
    InSequence(g, g, g1, g1, Refreshed(g1), Refreshed(g1), ENCODING_DONE);
  }

  lemma AllThreeServe(uri: Uri, low: Uri, payload: Payload)
    ensures Served(Stranded(uri, payload), QUIET, 0) && Served(Looking(uri, payload), Finding(low), 0) &&
            Served(Encoding(uri, low, payload), ENCODING_DONE, 0)
  {
    hide ProcessConcrete;
    FirstServing(uri, payload);
    SecondServing(uri, low, payload);
    ThirdServing(uri, low, payload);
    assert Finding(low).dhtAnswers[0].request == 3;
    assert ENCODING_DONE.encodingAnswers[0].request == 6;
  }

  /** Four is exact: in this run an expired send, started to `uri` and found at `low`, has not ended after
      three calls that served it. */
  lemma ThreeAreNotEnough(uri: Uri, low: Uri, payload: Payload) returns (inputs: seq<Input>, more: seq<Input>)
    ensures Run(INITIAL, inputs).Done? && Late(Run(INITIAL, inputs).g, 0)
    ensures Run(Run(INITIAL, inputs).g, more).Done? && ServedCalls(Run(INITIAL, inputs).g, more, 0) == 3
    ensures !Called(Run(Run(INITIAL, inputs).g, more).g, 0)
  {
    hide ProcessConcrete;
    hide Served;
    inputs, more := [Stranding(uri, payload)], [QUIET, Finding(low), ENCODING_DONE];
    StrandsOne(uri, payload);
    FirstServing(uri, payload);
    SecondServing(uri, low, payload);
    ThirdServing(uri, low, payload);
    AllThreeServe(uri, low, payload);
    assert inputs[1..] == [];
    var last := [ENCODING_DONE];
    assert more[1..] == [Finding(low)] + last && ([Finding(low)] + last)[1..] == last && last[1..] == [];
    var g2, g3, g4 := Looking(uri, payload), Encoding(uri, low, payload), Transmitting(uri, low, payload);
    assert Run(g3, last) == Done(g4, true) && ServedCalls(g3, last, 0) == 1;
    assert Run(g2, [Finding(low)] + last) == Done(g4, true) && ServedCalls(g2, [Finding(low)] + last, 0) == 2;
  }
}
