/** What holds of a gateway's sends in every run. */
module GatewayProofs {
  import opened Gateway
  import opened Wrappers

  // ----- Where callbacks are -----

  function Ids(sends: seq<Send>): seq<nat> {
    seq(|sends|, i requires 0 <= i < |sends| => sends[i].id)
  }

  function CallIds(calls: seq<Call>): seq<nat> {
    seq(|calls|, i requires 0 <= i < |calls| => calls[i].id)
  }

  function Holders(pending: map<nat, Pending>, id: nat): set<nat> {
    set r | r in pending && HasSend(pending[r]) && pending[r].send.id == id
  }

  /** How many places hold callback `id`, counting the sends in hand. */
  function Places(g: Gw, hand: seq<Send>, id: nat): nat {
    multiset(Ids(hand))[id] + multiset(Ids(g.queue))[id] + |Holders(g.pending, id)| + multiset(CallIds(g.calls))[id]
  }

  /** Every callback handed to the gateway is in exactly one place. */
  ghost predicate Linear(g: Gw, hand: seq<Send>) {
    (forall id: nat :: Places(g, hand, id) == if id < |g.history| then 1 else 0) &&
    (forall r :: r in g.pending ==> r < g.nextRequest)
  }

  // ----- When attempts happen -----

  function Last(times: seq<int>): int
    requires times != []
  {
    times[|times| - 1]
  }

  ghost predicate HistoryOk(h: History, clock: int) {
    h.start <= clock && (h.attempts != [] ==> h.told.Some?) && (h.given.FullLow? ==> h.told == Some(h.given.uri)) &&
    (forall i :: 0 <= i < |h.attempts| ==> h.start + SEND_RETRY_INTERVAL_MS * i <= h.attempts[i] <= clock) &&
    (forall i :: 0 <= i < |h.attempts| - 1 ==>
      h.attempts[i] + SEND_RETRY_INTERVAL_MS <= h.attempts[i + 1] && h.attempts[i] <= h.start + SEND_RETRY_TIMEOUT_MS)
  }

  /** Where a send is to go: the full address it was told, or as long as there is none what it was given. */
  function Aim(h: History): Target {
    if h.told.Some? then FullLow(h.told.value) else h.given
  }

  /** A send as it was handed in: same payload, same expiry, and aimed where it was told. */
  ghost predicate Genuine(g: Gw, send: Send) {
    send.id < |g.history| &&
    send.payload == g.history[send.id].payload &&
    send.target == Aim(g.history[send.id]) &&
    send.expiresAt == g.history[send.id].start + SEND_RETRY_TIMEOUT_MS &&
    send.lastAttempt <= g.clock
  }

  /** It cannot be dispatched again within the retry interval of its last encode attempt. */
  ghost predicate Rested(g: Gw, send: Send)
    requires send.id < |g.history|
  {
    var attempts := g.history[send.id].attempts;
    attempts != [] ==> send.lastAttempt >= Last(attempts) || g.clock >= Last(attempts) + SEND_RETRY_INTERVAL_MS
  }

  ghost predicate WaitOk(g: Gw, send: Send) {
    Genuine(g, send) && (send.target.FullLow? ==> g.history[send.id].told.Some?) && Rested(g, send)
  }

  ghost predicate QueuedOk(g: Gw, send: Send) {
    WaitOk(g, send) && (g.history[send.id].attempts != [] ==> Last(g.history[send.id].attempts) <= send.expiresAt)
  }

  ghost predicate PendingOk(g: Gw, pending: Pending) {
    HasSend(pending) ==>
      WaitOk(g, pending.send) &&
      (if pending.Resolve? then pending.send.target.PartialHigh?
       else pending.send.target.FullLow? && g.history[pending.send.id].attempts != [] &&
            pending.send.lastAttempt == Last(g.history[pending.send.id].attempts))
  }

  ghost predicate CallOk(g: Gw, call: Call) {
    call.id < |g.history| && call.at <= g.clock &&
    (call.outcome == Timeout ==> call.at > g.history[call.id].start + SEND_RETRY_TIMEOUT_MS)
  }

  ghost predicate Timed(g: Gw, rest: seq<Send>) {
    (forall i :: 0 <= i < |g.history| ==> HistoryOk(g.history[i], g.clock)) &&
    (forall i :: 0 <= i < |g.queue| ==> QueuedOk(g, g.queue[i])) &&
    (forall r :: r in g.pending ==> PendingOk(g, g.pending[r])) &&
    (forall i :: 0 <= i < |g.calls| ==> CallOk(g, g.calls[i])) &&
    (forall i :: 0 <= i < |rest| ==> QueuedOk(g, rest[i]))
  }

  ghost predicate Inv(g: Gw, rest: seq<Send>) {
    Linear(g, rest) && Timed(g, rest)
  }

  /** Nothing remembered is rewritten, no address told is changed, no call is taken back. */
  ghost predicate Extends(g: Gw, g': Gw) {
    g.attached == g'.attached && g.clock <= g'.clock && g.calls <= g'.calls && |g.history| <= |g'.history| &&
    forall id :: 0 <= id < |g.history| ==>
      g'.history[id].start == g.history[id].start && g'.history[id].payload == g.history[id].payload &&
      g'.history[id].given == g.history[id].given && g.history[id].attempts <= g'.history[id].attempts &&
      (g.history[id].told.Some? ==> g'.history[id].told == g.history[id].told)
  }

  // ----- Counting -----

  lemma IdsAppend(a: seq<Send>, b: seq<Send>)
    ensures Ids(a + b) == Ids(a) + Ids(b)
  {
  }

  lemma HoldersInsert(pending: map<nat, Pending>, r: nat, p: Pending, id: nat)
    requires r !in pending
    ensures |Holders(pending[r := p], id)| == |Holders(pending, id)| + (if HasSend(p) && p.send.id == id then 1 else 0)
  {
    var more := if HasSend(p) && p.send.id == id then {r} else {};
    assert Holders(pending[r := p], id) == Holders(pending, id) + more;
  }

  lemma HoldersRemove(pending: map<nat, Pending>, r: nat, id: nat)
    requires r in pending
    ensures |Holders(pending, id)| ==
              |Holders(pending - {r}, id)| + (if HasSend(pending[r]) && pending[r].send.id == id then 1 else 0)
  {
    var more := if HasSend(pending[r]) && pending[r].send.id == id then {r} else {};
    assert Holders(pending, id) == Holders(pending - {r}, id) + more;
  }

  /** A send in hand is nowhere else. */
  lemma NowhereElse(g: Gw, send: Send, rest: seq<Send>)
    requires Linear(g, [send] + rest)
    ensures send.id < |g.history|
    ensures forall i :: 0 <= i < |g.queue| ==> g.queue[i].id != send.id
    ensures forall r :: r in g.pending && HasSend(g.pending[r]) ==> g.pending[r].send.id != send.id
    ensures forall i :: 0 <= i < |g.calls| ==> g.calls[i].id != send.id
    ensures forall i :: 0 <= i < |rest| ==> rest[i].id != send.id
  {
    IdsAppend([send], rest);
    var id := send.id;
    assert Ids([send]) == [id];
    assert multiset(Ids([send] + rest)) == multiset{id} + multiset(Ids(rest));
    assert Places(g, [send] + rest, id) >= 1 + multiset(Ids(rest))[id];
    forall i | 0 <= i < |g.queue| ensures g.queue[i].id != id {
      assert Ids(g.queue)[i] in multiset(Ids(g.queue));
    }
    forall r | r in g.pending && HasSend(g.pending[r]) ensures g.pending[r].send.id != id {
      assert g.pending[r].send.id == id ==> r in Holders(g.pending, id);
    }
    forall i | 0 <= i < |g.calls| ensures g.calls[i].id != id {
      assert CallIds(g.calls)[i] in multiset(CallIds(g.calls));
    }
    forall i | 0 <= i < |rest| ensures rest[i].id != id {
      assert Ids(rest)[i] in multiset(Ids(rest));
    }
  }

  /** Each way of putting down the send in hand keeps the count. */
  lemma PutInQueue(g: Gw, send: Send, rest: seq<Send>, g': Gw, queued: Send)
    requires Linear(g, [send] + rest)
    requires |g'.history| == |g.history| && g'.pending == g.pending && g'.calls == g.calls
    requires g'.nextRequest == g.nextRequest
    requires queued.id == send.id && g'.queue == g.queue + [queued]
    ensures Linear(g', rest)
  {
    IdsAppend([send], rest);
    IdsAppend(g.queue, [queued]);
    assert Ids([send]) == [send.id] == Ids([queued]);
    forall id: nat ensures Places(g', rest, id) == Places(g, [send] + rest, id) {
    }
  }

  lemma PutInCalls(g: Gw, send: Send, rest: seq<Send>, g': Gw, call: Call)
    requires Linear(g, [send] + rest)
    requires |g'.history| == |g.history| && g'.pending == g.pending && g'.queue == g.queue
    requires g'.nextRequest == g.nextRequest
    requires call.id == send.id && g'.calls == g.calls + [call]
    ensures Linear(g', rest)
  {
    IdsAppend([send], rest);
    assert Ids([send]) == [send.id];
    assert CallIds(g'.calls) == CallIds(g.calls) + [call.id];
    forall id: nat ensures Places(g', rest, id) == Places(g, [send] + rest, id) {
    }
  }

  lemma PutInPending(g: Gw, send: Send, rest: seq<Send>, g': Gw, p: Pending)
    requires Linear(g, [send] + rest)
    requires |g'.history| == |g.history| && g'.queue == g.queue && g'.calls == g.calls
    requires HasSend(p) && p.send.id == send.id
    requires g'.pending == g.pending[g.nextRequest := p] && g'.nextRequest == g.nextRequest + 1
    ensures Linear(g', rest)
  {
    IdsAppend([send], rest);
    assert Ids([send]) == [send.id];
    forall id: nat ensures Places(g', rest, id) == Places(g, [send] + rest, id) {
      HoldersInsert(g.pending, g.nextRequest, p, id);
    }
  }

  // ----- Operations -----

  lemma SamePlaces(g: Gw, g': Gw, hand: seq<Send>)
    requires Linear(g, hand) && |g'.history| == |g.history|
    requires g'.queue == g.queue && g'.pending == g.pending && g'.calls == g.calls && g'.nextRequest == g.nextRequest
    ensures Linear(g', hand)
  {
    assert forall id: nat :: Places(g', hand, id) == Places(g, hand, id);
  }

  /** Time passing and news about the send in hand do not disturb the others. */
  lemma OthersUndisturbed(g: Gw, g': Gw, send: Send, rest: seq<Send>)
    requires Linear(g, [send] + rest) && Timed(g, rest)
    requires g.clock <= g'.clock && |g'.history| == |g.history|
    requires g'.queue == g.queue && g'.pending == g.pending && g'.calls == g.calls && g'.nextRequest == g.nextRequest
    requires forall id :: 0 <= id < |g.history| && id != send.id ==> g'.history[id] == g.history[id]
    requires send.id < |g.history| ==> HistoryOk(g'.history[send.id], g'.clock)
    ensures Timed(g', rest) && Linear(g', [send] + rest)
  {
    NowhereElse(g, send, rest);
    SamePlaces(g, g', [send] + rest);
    hide Linear;
    hide QueuedOk;
    hide PendingOk;
    forall i | 0 <= i < |g.queue| ensures QueuedOk(g', g.queue[i]) {
      StillQueued(g, g', g.queue[i]);
    }
    forall r | r in g.pending ensures PendingOk(g', g.pending[r]) {
      StillPending(g, g', g.pending[r]);
    }
    forall i | 0 <= i < |rest| ensures QueuedOk(g', rest[i]) {
      StillQueued(g, g', rest[i]);
    }
  }

  lemma StillQueued(g: Gw, g': Gw, send: Send)
    requires QueuedOk(g, send) && g.clock <= g'.clock
    requires |g'.history| == |g.history| && (send.id < |g.history| ==> g'.history[send.id] == g.history[send.id])
    ensures QueuedOk(g', send)
  {
  }

  lemma StillPending(g: Gw, g': Gw, p: Pending)
    requires PendingOk(g, p) && g.clock <= g'.clock && |g'.history| == |g.history|
    requires HasSend(p) && p.send.id < |g.history| ==> g'.history[p.send.id] == g.history[p.send.id]
    ensures PendingOk(g', p)
  {
  }

  /** Timing survives when everything newly put down fits. */
  lemma TimedGrows(g: Gw, g': Gw, rest: seq<Send>)
    requires Timed(g, rest) && g'.history == g.history && g'.clock == g.clock
    requires forall send :: send in g'.queue ==> send in g.queue || QueuedOk(g', send)
    requires forall r :: r in g'.pending ==>
               (r in g.pending && g.pending[r] == g'.pending[r]) || PendingOk(g', g'.pending[r])
    requires forall call :: call in g'.calls ==> call in g.calls || CallOk(g', call)
    ensures Timed(g', rest)
  {
    hide QueuedOk;
    hide PendingOk;
    hide CallOk;
    forall i | 0 <= i < |g'.queue| ensures QueuedOk(g', g'.queue[i]) {
      assert g'.queue[i] in g'.queue;
      if g'.queue[i] in g.queue { StillQueued(g, g', g'.queue[i]); }
    }
    forall r | r in g'.pending ensures PendingOk(g', g'.pending[r]) {
      if r in g.pending && g.pending[r] == g'.pending[r] { StillPending(g, g', g'.pending[r]); }
    }
    forall i | 0 <= i < |rest| ensures QueuedOk(g', rest[i]) {
      StillQueued(g, g', rest[i]);
    }
    forall i | 0 <= i < |g'.calls| ensures CallOk(g', g'.calls[i]) {
      assert g'.calls[i] in g'.calls;
      if g'.calls[i] in g.calls { StillCalled(g, g', g'.calls[i]); }
    }
  }

  lemma StillCalled(g: Gw, g': Gw, call: Call)
    requires CallOk(g, call) && g'.history == g.history && g'.clock == g.clock
    ensures CallOk(g', call)
  {
  }

  lemma Waits(g: Gw, send: Send, rest: seq<Send>, env: Env)
    requires Linear(g, [send] + rest) && Timed(g, rest) && WaitOk(g, send)
    ensures var r := QueuePending(g, send, env);
            r.Done? && Inv(r.g, rest) && Extends(g, r.g)
  {
    var now := g.clock + env.d0;
    var g1 := g.(clock := now);
    HistoryFits(g, rest, send.id, now);
    OthersUndisturbed(g, g1, send, rest);
    hide Linear;
    hide Timed;
    var g' := QueuePending(g, send, env).g;
    if send.expiresAt < now {
      PutInCalls(g1, send, rest, g', Call(send.id, Timeout, now));
      TimedGrows(g1, g', rest);
    } else {
      PutInQueue(g1, send, rest, g', send);
      assert QueuedOk(g', send);
      TimedGrows(g1, g', rest);
    }
  }

  lemma HistoryFits(g: Gw, rest: seq<Send>, id: nat, now: int)
    requires Timed(g, rest) && id < |g.history| && g.clock <= now
    ensures HistoryOk(g.history[id], g.clock) && HistoryOk(g.history[id], now)
  {
  }

  lemma SameCallback(g: Gw, send: Send, send': Send, rest: seq<Send>)
    requires Linear(g, [send] + rest) && send'.id == send.id
    ensures Linear(g, [send'] + rest)
  {
    IdsAppend([send], rest);
    IdsAppend([send'], rest);
    assert Ids([send]) == Ids([send']);
    assert forall id: nat :: Places(g, [send'] + rest, id) == Places(g, [send] + rest, id);
  }

  lemma Requested(g: Gw, send: Send, rest: seq<Send>, p: Pending, env: Env)
    requires Linear(g, [send] + rest) && Timed(g, rest)
    requires HasSend(p) && p.send.id == send.id && PendingOk(g, p) && Owner(p) in g.attached
    ensures var r := Request(g, p, env);
            r.Done? && Inv(r.g, rest) && Extends(g, r.g)
  {
    hide Linear;
    hide Timed;
    hide PendingOk;
    var g' := Request(g, p, env).g;
    PutInPending(g, send, rest, g', p);
    StillPending(g, g', p);
    TimedGrows(g, g', rest);
  }

  lemma SendsPartial(g: Gw, send: Send, rest: seq<Send>, env: Env)
    requires Linear(g, [send] + rest) && Timed(g, rest)
    requires WaitOk(g, send) && send.target.PartialHigh? && InnerDht in g.attached
    ensures var r := SendPartial(g, send, env);
            r.Done? && Inv(r.g, rest) && Extends(g, r.g)
  {
    hide Linear;
    hide Timed;
    var now := g.clock + env.d0;
    var g1 := g.(clock := now);
    HistoryFits(g, rest, send.id, now);
    OthersUndisturbed(g, g1, send, rest);
    Requested(g1, send, rest, Resolve(send.(lastAttempt := now)), env);
  }

  ghost predicate MayAttempt(g: Gw, send: Send, now: int) {
    Genuine(g, send) && g.history[send.id].told.Some? &&
    (g.history[send.id].attempts != [] ==>
      Last(g.history[send.id].attempts) <= send.expiresAt &&
      now >= Last(g.history[send.id].attempts) + SEND_RETRY_INTERVAL_MS)
  }

  /** With the encoder detached the send waits and no attempt is made. */
  lemma PostponesFull(g: Gw, send: Send, rest: seq<Send>, env: Env)
    requires Linear(g, [send] + rest) && Timed(g, rest)
    requires MayAttempt(g, send, g.clock + env.d0) && MessageEncoding !in g.attached
    ensures var r := SendFull(g, send, env);
            r.Done? && Inv(r.g, rest) && Extends(g, r.g)
  {
    hide Linear;
    hide Timed;
    hide QueuePending;
    var now := g.clock + env.d0;
    HistoryFits(g, rest, send.id, now);
    var g1 := g.(clock := now);
    assert Extends(g, g1);
    hide Extends;
    OthersUndisturbed(g, g1, send, rest);
    var send' := send.(lastAttempt := now - 2 * SEND_RETRY_INTERVAL_MS);
    SameCallback(g1, send, send', rest);
    Waits(g1, send', rest, env.(d0 := env.d1));
    ExtendsTransitive(g, g1, SendFull(g, send, env).g);
  }

  lemma SendsFull(g: Gw, send: Send, rest: seq<Send>, env: Env)
    requires Linear(g, [send] + rest) && Timed(g, rest)
    requires MayAttempt(g, send, g.clock + env.d0)
    ensures var r := SendFull(g, send, env);
            r.Done? && Inv(r.g, rest) && Extends(g, r.g)
  {
    hide Linear;
    hide Timed;
    var now := g.clock + env.d0;
    var h := g.history[send.id];
    HistoryFits(g, rest, send.id, now);
    if MessageEncoding !in g.attached {
      PostponesFull(g, send, rest, env);
    } else {
      var g1 := Attempted(g.(clock := now), send.id);
      AttemptOk(h, g.clock, now);
      OthersUndisturbed(g, g1, send, rest);
      Requested(g1, send, rest, Encode(send.(lastAttempt := now)), env);
    }
  }

  lemma AttemptOk(h: History, clock: int, now: int)
    requires HistoryOk(h, clock) && clock <= now && h.told.Some?
    requires h.attempts != [] ==>
               Last(h.attempts) <= h.start + SEND_RETRY_TIMEOUT_MS && now >= Last(h.attempts) + SEND_RETRY_INTERVAL_MS
    ensures HistoryOk(h.(attempts := h.attempts + [now]), now)
  {
    var attempts := h.attempts + [now];
    forall i | 0 <= i < |attempts| ensures h.start + SEND_RETRY_INTERVAL_MS * i <= attempts[i] <= now {
      if i == |h.attempts| && i > 0 {
        assert attempts[i - 1] == h.attempts[i - 1];
      }
    }
  }

  lemma Dispatches(g: Gw, send: Send, rest: seq<Send>, env: Env)
    requires Linear(g, [send] + rest) && Timed(g, rest) && QueuedOk(g, send)
    requires InnerDht in g.attached
    ensures var r := CheckDispatch(g, send, env);
            r.Done? && Inv(r.g, rest) && Extends(g, r.g)
  {
    hide Linear;
    hide Timed;
    var now := g.clock + env.d0;
    var g1, env1 := g.(clock := now), env.(d0 := env.d1, d1 := env.d2);
    HistoryFits(g, rest, send.id, now);
    OthersUndisturbed(g, g1, send, rest);
    if now - send.lastAttempt < SEND_RETRY_INTERVAL_MS {
      Waits(g1, send, rest, env1);
    } else if send.target.PartialHigh? {
      SendsPartial(g1, send, rest, env1);
    } else {
      SendsFull(g1, send, rest, env1);
    }
  }

  lemma ExtendsTransitive(a: Gw, b: Gw, c: Gw)
    requires Extends(a, b) && Extends(b, c)
    ensures Extends(a, c)
  {
  }

  /** A drain of the retry queue handles every send, whatever errors its siblings report. */
  lemma {:induction false} DispatchesAll(g: Gw, sends: seq<Send>, envs: seq<Env>, ok: bool)
    requires Inv(g, sends) && InnerDht in g.attached
    ensures var r := DispatchAll(g, sends, envs, ok);
            r.Done? && Inv(r.g, []) && Extends(g, r.g)
    decreases |sends|
  {
    if sends != [] {
      var send, rest := sends[0], sends[1..];
      assert [send] + rest == sends;
      TimedTail(g, sends);
      hide Linear;
      hide Timed;
      hide CheckDispatch;
      Dispatches(g, send, rest, EnvAt(envs, 0));
      var r := CheckDispatch(g, send, EnvAt(envs, 0));
      var envs' := if envs == [] then [] else envs[1..];
      DispatchesAll(r.g, rest, envs', ok && r.ok);
      ExtendsTransitive(g, r.g, DispatchAll(r.g, rest, envs', ok && r.ok).g);
    }
  }

  lemma TimedTail(g: Gw, sends: seq<Send>)
    requires Timed(g, sends) && sends != []
    ensures Timed(g, sends[1..]) && QueuedOk(g, sends[0])
  {
  }

  lemma PendingSendsKept(g: Gw, envs: seq<Env>)
    requires Inv(g, []) && InnerDht in g.attached
    ensures var r := ProcessPendingSends(g, envs);
            r.Done? && Inv(r.g, []) && Extends(g, r.g)
  {
    var g1 := g.(queue := []);
    assert Ids([]) == [];
    assert forall id: nat :: Places(g1, g.queue, id) == Places(g, [], id);
    forall i | 0 <= i < |g.queue| ensures QueuedOk(g1, g.queue[i]) {
      StillQueued(g, g1, g.queue[i]);
    }
    TimedGrows(g, g1, []);
    DispatchesAll(g1, g.queue, envs, true);
  }

  // ----- New sends -----

  lemma NewSend(g: Gw, h: History, send: Send)
    requires Inv(g, []) && send.id == |g.history|
    requires h.start >= g.clock && h.attempts == [] && (h.given.FullLow? ==> h.told == Some(h.given.uri))
    ensures var g1 := g.(clock := h.start, history := g.history + [h]);
            Linear(g1, [send] + []) && Timed(g1, []) && Extends(g, g1)
  {
    var g1 := g.(clock := h.start, history := g.history + [h]);
    assert [send] + [] == [send] && Ids([send]) == [send.id] && Ids([]) == [];
    assert forall id: nat :: Places(g1, [send], id) == Places(g, [], id) + (if id == send.id then 1 else 0);
    forall i | 0 <= i < |g.queue| ensures QueuedOk(g1, g1.queue[i]) {
      assert QueuedOk(g, g.queue[i]);
    }
    forall r | r in g.pending ensures PendingOk(g1, g1.pending[r]) {
      assert PendingOk(g, g.pending[r]);
    }
    forall i | 0 <= i < |g.calls| ensures CallOk(g1, g1.calls[i]) {
      assert CallOk(g, g.calls[i]);
    }
  }

  lemma StartsFull(g: Gw, uri: Uri, payload: Payload, env: Env)
    requires Inv(g, [])
    ensures var r := StartFull(g, uri, payload, env);
            r.Done? && Inv(r.g, []) && Extends(g, r.g)
  {
    hide Linear;
    hide Timed;
    hide Extends;
    hide SendFull;
    var now := g.clock + env.d0;
    var send := Send(|g.history|, FullLow(uri), payload, now, now + SEND_RETRY_TIMEOUT_MS);
    var h := History(now, payload, FullLow(uri), Some(uri), []);
    NewSend(g, h, send);
    var g1 := g.(clock := now, history := g.history + [h]);
    assert MayAttempt(g1, send, g1.clock + env.d1);
    SendsFull(g1, send, [], env.(d0 := env.d1, d1 := env.d2));
    ExtendsTransitive(g, g1, StartFull(g, uri, payload, env).g);
  }

  lemma StartsPartial(g: Gw, uri: Uri, payload: Payload, env: Env)
    requires Inv(g, []) && InnerDht in g.attached
    ensures var r := StartPartial(g, uri, payload, env);
            r.Done? && Inv(r.g, []) && Extends(g, r.g)
  {
    hide Linear;
    hide Timed;
    hide Extends;
    hide SendPartial;
    var now := g.clock + env.d0;
    var send := Send(|g.history|, PartialHigh(uri), payload, now, now + SEND_RETRY_TIMEOUT_MS);
    var h := History(now, payload, PartialHigh(uri), None, []);
    NewSend(g, h, send);
    var g1 := g.(clock := now, history := g.history + [h]);
    assert WaitOk(g1, send);
    SendsPartial(g1, send, [], env.(d0 := env.d1, d1 := env.d2));
    ExtendsTransitive(g, g1, StartPartial(g, uri, payload, env).g);
  }

  // ----- Callbacks -----

  /** No detached member was touched, and if the operation came back at all, every callback is still
      in exactly one place and on time. */
  ghost predicate Good(g: Gw, r: Result) {
    !r.DetachPanic? && (r.Done? ==> Inv(r.g, []) && Extends(g, r.g))
  }

  /** Answering a request takes its closure out of the tracker and its send in hand. */
  lemma TakePending(g: Gw, r: nat)
    requires Inv(g, []) && r in g.pending
    ensures var g1, p := g.(pending := g.pending - {r}), g.pending[r];
            Timed(g1, []) && PendingOk(g1, p) && Extends(g, g1) &&
            Linear(g1, if HasSend(p) then [p.send] + [] else [])
  {
    var g1, p := g.(pending := g.pending - {r}), g.pending[r];
    StillPending(g, g1, p);
    TimedGrows(g, g1, []);
    var hand := if HasSend(p) then [p.send] + [] else [];
    assert HasSend(p) ==> hand == [p.send] && Ids(hand) == [p.send.id];
    assert Ids([]) == [];
    forall id: nat ensures Places(g1, hand, id) == Places(g, [], id) {
      HoldersRemove(g.pending, r, id);
    }
  }

  lemma PlainRequest(g: Gw, p: Pending, env: Env)
    requires Inv(g, []) && !HasSend(p) && Owner(p) in g.attached
    ensures Good(g, Request(g, p, env))
  {
    var g1 := Request(g, p, env).g;
    TimedGrows(g, g1, []);
    forall id: nat ensures Places(g1, [], id) == Places(g, [], id) {
      HoldersInsert(g.pending, g.nextRequest, p, id);
    }
  }

  lemma {:induction false} SendsToAll(g: Gw, peers: seq<(Uri, Env)>, payload: Payload)
    requires Inv(g, [])
    ensures Good(g, SendToAll(g, peers, payload))
    decreases |peers|
  {
    if peers != [] {
      hide Inv;
      hide StartFull;
      StartsFull(g, peers[0].0, payload, peers[0].1);
      var r := StartFull(g, peers[0].0, payload, peers[0].1);
      if r.ok {
        SendsToAll(r.g, peers[1..], payload);
        var r2 := SendToAll(r.g, peers[1..], payload);
        if r2.Done? {
          ExtendsTransitive(g, r.g, r2.g);
        }
      }
    }
  }

  /** The callback of a request whose send is in hand. */
  lemma SendCallback(g: Gw, p: Pending, response: Response, env: Env)
    requires HasSend(p) && Linear(g, [p.send] + []) && Timed(g, []) && PendingOk(g, p)
    requires g.attached == ALL_MEMBERS - {Owner(p)}
    ensures Good(g, RunCallback(g, p, response, env))
  {
    hide Linear;
    hide Timed;
    hide SendFull;
    hide QueuePending;
    var send := p.send;
    match p
    case Resolve(_) =>
      if response.PeerFound? {
        HistoryFits(g, [], send.id, g.clock);
        var send' := send.(target := FullLow(response.uri));
        var g1 := Told(g, send.id, response.uri);
        OthersUndisturbed(g, g1, send, []);
        SameCallback(g1, send, send', []);
        SendsFull(g1, send', [], env);
        ExtendsTransitive(g, g1, SendFull(g1, send', env).g);
      } else {
        Waits(g, send, [], env);
      }
    case Encode(_) =>
      if response.Encoded? {
        Requested(g, send, [], Transmit(send), env);
      } else {
        Waits(g, send, [], env);
      }
    case Transmit(_) =>
      if response.Sent? {
        var call := Call(send.id, Success, g.clock);
        var g' := g.(calls := g.calls + [call]);
        PutInCalls(g, send, [], g', call);
        TimedGrows(g, g', []);
      } else {
        Waits(g, send, [], env);
      }
  }

  /** The callbacks that carry no send may start new ones; none touches its own, detached, member. */
  lemma PlainCallback(g: Gw, p: Pending, response: Response, env: Env)
    requires !HasSend(p) && Inv(g, [])
    requires g.attached == ALL_MEMBERS - {Owner(p)}
    ensures Good(g, RunCallback(g, p, response, env))
  {
    hide Inv;
    hide StartFull;
    hide SendToAll;
    match p
    case Decode(uri) =>
      if response.Decoded? && response.message.Ping? {
        StartsFull(g, uri, response.message.pong, env);
      }
    case ReplyIncoming(uri, payload) =>
      StartsFull(g, uri, payload, env);
    case SendAllPeers(payload) =>
      if response.PeerList? {
        SendsToAll(g, response.peers, payload);
      }
    case _ =>
  }

  lemma AnswersOne(g: Gw, member: Member, answer: Answer)
    requires Inv(g, []) && g.attached == ALL_MEMBERS - {member}
    ensures Good(g, AnswerOne(g, member, answer))
  {
    if answer.request in g.pending && Owner(g.pending[answer.request]) == member {
      var p, g1 := g.pending[answer.request], g.(pending := g.pending - {answer.request});
      TakePending(g, answer.request);
      hide RunCallback;
      hide Linear;
      hide Timed;
      if HasSend(p) {
        SendCallback(g1, p, answer.response, answer.env);
      } else {
        PlainCallback(g1, p, answer.response, answer.env);
      }
      var r := RunCallback(g1, p, answer.response, answer.env);
      if r.Done? {
        ExtendsTransitive(g, g1, r.g);
      }
    }
  }

  lemma {:induction false} AnswersAll(g: Gw, member: Member, answers: seq<Answer>)
    requires Inv(g, []) && g.attached == ALL_MEMBERS - {member}
    ensures Good(g, AnswerAll(g, member, answers))
    decreases |answers|
  {
    if answers != [] {
      hide Inv;
      hide AnswerOne;
      AnswersOne(g, member, answers[0]);
      var r := AnswerOne(g, member, answers[0]);
      if r.Done? && r.ok {
        AnswersAll(r.g, member, answers[1..]);
        var r2 := AnswerAll(r.g, member, answers[1..]);
        if r2.Done? {
          ExtendsTransitive(g, r.g, r2.g);
        }
      }
    }
  }

  // ----- Phases and whole runs -----

  lemma Recell(g: Gw, members: set<Member>)
    requires Inv(g, [])
    ensures Inv(g.(attached := members), [])
  {
    var g' := g.(attached := members);
    SamePlaces(g, g', []);
    TimedGrows(g, g', []);
  }

  /** The member is back in its cell afterwards, whether or not a callback failed. */
  lemma DetachRuns(g: Gw, member: Member, answers: seq<Answer>)
    requires Inv(g, []) && g.attached == ALL_MEMBERS
    ensures Good(g, DetachRun(g, member, answers))
  {
    hide Inv;
    var g1 := g.(attached := g.attached - {member});
    Recell(g, g1.attached);
    AnswersAll(g1, member, answers);
    var r := AnswerAll(g1, member, answers);
    if r.Done? {
      Recell(r.g, r.g.attached + {member});
      assert r.g.attached + {member} == ALL_MEMBERS;
    }
  }

  lemma HandlesOne(g: Gw, message: Drained)
    requires Inv(g, []) && g.attached == ALL_MEMBERS
    ensures Good(g, HandleOne(g, message))
  {
    hide Inv;
    hide StartFull;
    hide StartPartial;
    match message
    case BindRequest(env) => PlainRequest(g, Bind, env);
    case SendMessage(uri, payload, env) => StartsPartial(g, uri, payload, env);
    case DhtRequest(env) => PlainRequest(g, ForwardDht, env);
    case Bootstrap(uri, payload, env) => StartsFull(g, uri, payload, env);
    case SendAll(payload, env) => PlainRequest(g, SendAllPeers(payload), env);
    case IncomingConnection(uri, payload, env) => PlainRequest(g, ReplyIncoming(uri, payload), env);
    case ReceivedData(uri, env) => PlainRequest(g, Decode(uri), env);
    case HoldPeerRequested(uri, ping, env, publish) => StartsFull(g, uri, ping, env);
    case RequestEntry(env) => PlainRequest(g, FetchEntry, env);
    case _ =>
  }

  lemma {:induction false} HandlesAll(g: Gw, messages: seq<Drained>)
    requires Inv(g, []) && g.attached == ALL_MEMBERS
    ensures Good(g, HandleAll(g, messages))
    decreases |messages|
  {
    if messages != [] {
      hide Inv;
      hide HandleOne;
      HandlesOne(g, messages[0]);
      var r := HandleOne(g, messages[0]);
      if r.Done? && r.ok {
        HandlesAll(r.g, messages[1..]);
        var r2 := HandleAll(r.g, messages[1..]);
        if r2.Done? {
          ExtendsTransitive(g, r.g, r2.g);
        }
      }
    }
  }

  lemma {:induction false} PhasesRun(g: Gw, phases: seq<Phase>)
    requires Inv(g, []) && g.attached == ALL_MEMBERS
    ensures Good(g, RunPhases(g, phases))
    decreases |phases|
  {
    if phases != [] {
      hide Inv;
      match phases[0] {
        case Callbacks(member, answers) => DetachRuns(g, member, answers);
        case Messages(messages) => HandlesAll(g, messages);
        case PendingSends(envs) => PendingSendsKept(g, envs);
        case Refresh(env) => PlainRequest(g, RefreshThisPeer, env);
      }
      hide DetachRun;
      hide HandleAll;
      hide ProcessPendingSends;
      hide Request;
      var r := RunPhase(g, phases[0]);
      if r.Done? && r.ok {
        PhasesRun(r.g, phases[1..]);
        var r2 := RunPhases(r.g, phases[1..]);
        if r2.Done? {
          ExtendsTransitive(g, r.g, r2.g);
        }
      }
    }
  }

  /** Over any number of process calls with any messages, answers, errors and delays: no detached
      member is ever taken or dereferenced, all members are back in their cells, and every callback
      handed to the gateway is in exactly one place, on time. */
  lemma {:induction false} EveryRunIsGood(g: Gw, inputs: seq<Input>)
    requires Inv(g, []) && g.attached == ALL_MEMBERS
    ensures Good(g, Run(g, inputs))
    decreases |inputs|
  {
    if inputs != [] {
      hide Inv;
      hide RunPhases;
      var input := inputs[0];
      PhasesRun(g, Phases(input));
      var r := ProcessConcrete(g, input);
      if r.Done? {
        EveryRunIsGood(r.g, inputs[1..]);
        var r2 := Run(r.g, inputs[1..]);
        if r2.Done? {
          ExtendsTransitive(g, r.g, r2.g);
        }
      }
    }
  }

  // ----- What this means for a caller -----

  lemma InitialIsFine()
    ensures Inv(INITIAL, [])
  {
    assert Ids([]) == [] && CallIds([]) == [];
    assert forall id: nat :: Holders(map[], id) == {};
    assert forall id: nat :: Places(INITIAL, [], id) == 0;
  }

  /** Detach safety over every run. */
  lemma NoDetachPanic(inputs: seq<Input>)
    ensures !Run(INITIAL, inputs).DetachPanic?
    ensures Run(INITIAL, inputs).Done? ==> Run(INITIAL, inputs).g.attached == ALL_MEMBERS
  {
    InitialIsFine();
    EveryRunIsGood(INITIAL, inputs);
  }

  /** Callback linearity: every callback is in exactly one place, so it is never lost and never
      called twice; wherever its send is, it carries the original payload and expiry. */
  lemma OneCallbackOnePlace(inputs: seq<Input>, id: nat)
    requires Run(INITIAL, inputs).Done?
    ensures var g := Run(INITIAL, inputs).g;
            (id < |g.history| ==> Places(g, [], id) == 1) &&
            (forall i :: 0 <= i < |g.queue| ==> Genuine(g, g.queue[i])) &&
            (forall r :: r in g.pending && HasSend(g.pending[r]) ==> Genuine(g, g.pending[r].send))
  {
    InitialIsFine();
    EveryRunIsGood(INITIAL, inputs);
    var g := Run(INITIAL, inputs).g;
    assert forall i :: 0 <= i < |g.queue| ==> QueuedOk(g, g.queue[i]);
    assert forall r :: r in g.pending ==> PendingOk(g, g.pending[r]);
  }

  /** Retry bound: a send is encoded at most 1002 times, at least 20 ms apart. */
  lemma RetryBound(inputs: seq<Input>, id: nat)
    requires Run(INITIAL, inputs).Done? && id < |Run(INITIAL, inputs).g.history|
    ensures var attempts := Run(INITIAL, inputs).g.history[id].attempts;
            |attempts| <= 1002 &&
            forall i :: 0 <= i < |attempts| - 1 ==> attempts[i] + SEND_RETRY_INTERVAL_MS <= attempts[i + 1]
  {
    InitialIsFine();
    EveryRunIsGood(INITIAL, inputs);
    var g := Run(INITIAL, inputs).g;
    HistoryFits(g, [], id, g.clock);
    AttemptsBounded(g.history[id], g.clock);
  }

  lemma AttemptsBounded(h: History, clock: int)
    requires HistoryOk(h, clock)
    ensures |h.attempts| <= 1002
  {
    var n := |h.attempts|;
    if n >= 2 {
      assert h.start + SEND_RETRY_INTERVAL_MS * (n - 2) <= h.attempts[n - 2] <= h.start + SEND_RETRY_TIMEOUT_MS;
    }
  }

  /** A callback hears an error only as a timeout, and only strictly after the send expired. */
  lemma ErrorsAreLateTimeouts(inputs: seq<Input>, i: nat)
    requires Run(INITIAL, inputs).Done? && i < |Run(INITIAL, inputs).g.calls|
    ensures var g := Run(INITIAL, inputs).g;
            g.calls[i].id < |g.history| &&
            (g.calls[i].outcome != Success ==> g.calls[i].at > g.history[g.calls[i].id].start + SEND_RETRY_TIMEOUT_MS)
  {
    InitialIsFine();
    EveryRunIsGood(INITIAL, inputs);
    var g := Run(INITIAL, inputs).g;
    assert CallOk(g, g.calls[i]);
  }

  /** Once resolved, a send is never again waiting for its address; calls made stay made. */
  lemma NeverUnresolved(inputs: seq<Input>, more: seq<Input>, id: nat)
    requires Run(INITIAL, inputs).Done? && Run(Run(INITIAL, inputs).g, more).Done?
    requires id < |Run(INITIAL, inputs).g.history| && Run(INITIAL, inputs).g.history[id].told.Some?
    ensures var g, g' := Run(INITIAL, inputs).g, Run(Run(INITIAL, inputs).g, more).g;
            g.calls <= g'.calls &&
            (forall i :: 0 <= i < |g'.queue| && g'.queue[i].id == id ==> g'.queue[i].target.FullLow?) &&
            (forall r :: r in g'.pending && HasSend(g'.pending[r]) && g'.pending[r].send.id == id ==>
              g'.pending[r].send.target.FullLow?)
  {
    InitialIsFine();
    EveryRunIsGood(INITIAL, inputs);
    var g := Run(INITIAL, inputs).g;
    EveryRunIsGood(g, more);
    var g' := Run(g, more).g;
    assert forall i :: 0 <= i < |g'.queue| ==> QueuedOk(g', g'.queue[i]);
    assert forall r :: r in g'.pending ==> PendingOk(g', g'.pending[r]);
  }

  // ----- The bound is reached -----

  const AT_ONCE := Env(0, 0, 0, false)

  /** One send, encoded `|attempts|` times so far, waiting for the encoder's answer to request `r`. */
  function Trying(uri: Uri, payload: Payload, attempts: seq<int>, r: nat, next: nat): Gw
    requires attempts != []
  {
    var send := Send(0, FullLow(uri), payload, Last(attempts), SEND_RETRY_TIMEOUT_MS);
    Gw(ALL_MEMBERS, [], map[r := Encode(send)], [], next,
       Last(attempts), [History(0, payload, FullLow(uri), Some(uri), attempts)])
  }

  /** The encoder fails, and the retry happens exactly 20 ms after the last attempt. */
  function Retry(r: nat, next: nat): Input {
    Input([], [], [], [], [Answer(r, Failed, AT_ONCE)], [Env(SEND_RETRY_INTERVAL_MS, 0, 0, false)], AT_ONCE,
          [Answer(next + 1, ThisPeer(AT_ONCE), AT_ONCE)], [])
  }

  lemma Cell(member: Member)
    ensures member in ALL_MEMBERS
  {
    match member
    case EndpointSelf => case InnerTransport => case MessageEncoding => case InnerDht =>
  }

  lemma SkipPhase(g: Gw, phase: Phase, rest: seq<Phase>)
    requires g.attached == ALL_MEMBERS
    requires phase == Messages([]) || (phase.Callbacks? && phase.answers == [])
    ensures RunPhases(g, [phase] + rest) == RunPhases(g, rest)
  {
    assert ([phase] + rest)[1..] == rest;
    if phase.Callbacks? {
      Cell(phase.member);
      assert g.attached - {phase.member} + {phase.member} == g.attached;
      assert DetachRun(g, phase.member, []) == Done(g, true);
    }
  }

  lemma Silent(g: Gw)
    ensures RunPhase(g, Messages([])) == Done(g, true)
  {
  }

  lemma DoPhase(g: Gw, phase: Phase, rest: seq<Phase>, g': Gw)
    requires RunPhase(g, phase) == Done(g', true)
    ensures RunPhases(g, [phase] + rest) == RunPhases(g', rest)
  {
    assert ([phase] + rest)[1..] == rest;
  }

  lemma OneAnswer(g: Gw, member: Member, answer: Answer, g': Gw)
    requires g.attached == ALL_MEMBERS && g'.attached == ALL_MEMBERS - {member}
    requires AnswerOne(g.(attached := ALL_MEMBERS - {member}), member, answer) == Done(g', true)
    ensures RunPhase(g, Callbacks(member, [answer])) == Done(g'.(attached := ALL_MEMBERS), true)
  {
    assert [answer][1..] == [];
    assert AnswerAll(g', member, []) == Done(g', true);
    assert ALL_MEMBERS - {member} + {member} == ALL_MEMBERS;
  }

  /** The encoder's failure puts the send back in the queue. */
  lemma EncoderFails(g: Gw, send: Send, r: nat)
    requires g.attached == ALL_MEMBERS && g.pending == map[r := Encode(send)] && g.queue == []
    requires g.clock <= send.expiresAt
    ensures RunPhase(g, Callbacks(MessageEncoding, [Answer(r, Failed, AT_ONCE)])) ==
            Done(g.(pending := map[], queue := [send]), true)
  {
    var g1 := g.(pending := map[], queue := [send]);
    assert g.pending - {r} == map[];
    assert [] + [send] == [send];
    OneAnswer(g, MessageEncoding, Answer(r, Failed, AT_ONCE), g1.(attached := ALL_MEMBERS - {MessageEncoding}));
  }

  /** The drain encodes it again. */
  lemma DrainEncodes(g: Gw, send: Send, h: History)
    requires g.attached == ALL_MEMBERS && g.pending == map[] && g.queue == [send] && g.history == [h]
    requires send.id == 0 && send.target.FullLow? && send.lastAttempt == g.clock
    ensures var now := g.clock + SEND_RETRY_INTERVAL_MS;
            RunPhase(g, PendingSends([Env(SEND_RETRY_INTERVAL_MS, 0, 0, false)])) ==
              Done(g.(queue := [], clock := now, pending := map[g.nextRequest := Encode(send.(lastAttempt := now))],
                      nextRequest := g.nextRequest + 1, history := [h.(attempts := h.attempts + [now])]), true)
  {
    var now := g.clock + SEND_RETRY_INTERVAL_MS;
    var g' := g.(queue := [], clock := now, pending := map[g.nextRequest := Encode(send.(lastAttempt := now))],
                 nextRequest := g.nextRequest + 1, history := [h.(attempts := h.attempts + [now])]);
    assert g.history[0 := h.(attempts := h.attempts + [now])] == g'.history;
    DrainOne(g.(queue := []), send, Env(SEND_RETRY_INTERVAL_MS, 0, 0, false), g');
  }

  /** The refresh of this_peer is answered. */
  lemma RefreshAnswered(g: Gw)
    requires g.attached == ALL_MEMBERS && g.nextRequest !in g.pending
    ensures var g1 := g.(pending := g.pending[g.nextRequest := RefreshThisPeer], nextRequest := g.nextRequest + 1);
            RunPhase(g, Refresh(AT_ONCE)) == Done(g1, true) &&
            RunPhase(g1, Callbacks(InnerDht, [Answer(g.nextRequest, ThisPeer(AT_ONCE), AT_ONCE)])) ==
              Done(g.(nextRequest := g.nextRequest + 1), true)
  {
    var g1 := g.(pending := g.pending[g.nextRequest := RefreshThisPeer], nextRequest := g.nextRequest + 1);
    assert g1.pending - {g.nextRequest} == g.pending;
    OneAnswer(g1, InnerDht, Answer(g.nextRequest, ThisPeer(AT_ONCE), AT_ONCE),
              g.(nextRequest := g.nextRequest + 1, attached := ALL_MEMBERS - {InnerDht}));
  }

  lemma InSequence(g: Gw, g0: Gw, g1: Gw, g2: Gw, g3: Gw, g4: Gw, input: Input)
    requires g.attached == ALL_MEMBERS && g0.attached == ALL_MEMBERS && g4.attached == ALL_MEMBERS
    requires input.selfAnswers == [] && input.transportAnswers == []
    requires input.transportMessages == [] && input.dhtMessages == []
    requires RunPhase(g, Messages(input.parentMessages)) == Done(g0, true)
    requires RunPhase(g0, Callbacks(MessageEncoding, input.encodingAnswers)) == Done(g1, true)
    requires RunPhase(g1, PendingSends(input.pendingEnvs)) == Done(g2, true)
    requires RunPhase(g2, Refresh(input.refresh)) == Done(g3, true)
    requires RunPhase(g3, Callbacks(InnerDht, input.dhtAnswers)) == Done(g4, true)
    ensures ProcessConcrete(g, input) == Done(g4, true)
  {
    hide RunPhase;
    var p9 := [Messages([])] + [];
    var p8 := [Callbacks(InnerDht, input.dhtAnswers)] + p9;
    var p7 := [Refresh(input.refresh)] + p8;
    var p6 := [PendingSends(input.pendingEnvs)] + p7;
    var p5 := [Callbacks(MessageEncoding, input.encodingAnswers)] + p6;
    var p4 := [Messages([])] + p5;
    var p3 := [Callbacks(InnerTransport, [])] + p4;
    var p2 := [Messages(input.parentMessages)] + p3;
    assert Phases(input) == [Callbacks(EndpointSelf, [])] + p2;
    SkipPhase(g, Callbacks(EndpointSelf, []), p2);
    DoPhase(g, Messages(input.parentMessages), p3, g0);
    SkipPhase(g0, Callbacks(InnerTransport, []), p4);
    SkipPhase(g0, Messages([]), p5);
    DoPhase(g0, Callbacks(MessageEncoding, input.encodingAnswers), p6, g1);
    DoPhase(g1, PendingSends(input.pendingEnvs), p7, g2);
    DoPhase(g2, Refresh(input.refresh), p8, g3);
    DoPhase(g3, Callbacks(InnerDht, input.dhtAnswers), p9, g4);
    SkipPhase(g4, Messages([]), []);
  }

  lemma OneMoreTry(uri: Uri, payload: Payload, attempts: seq<int>, r: nat, next: nat)
    requires attempts != [] && r < next && Last(attempts) <= SEND_RETRY_TIMEOUT_MS
    ensures ProcessConcrete(Trying(uri, payload, attempts, r, next), Retry(r, next)) ==
              Done(Trying(uri, payload, attempts + [Last(attempts) + SEND_RETRY_INTERVAL_MS], next, next + 2), true)
  {
    hide RunPhase;
    hide RunPhases;
    var g0 := Trying(uri, payload, attempts, r, next);
    var send := Send(0, FullLow(uri), payload, Last(attempts), SEND_RETRY_TIMEOUT_MS);
    EncoderFails(g0, send, r);
    var g1 := g0.(pending := map[], queue := [send]);
    DrainEncodes(g1, send, g0.history[0]);
    var g2 := Trying(uri, payload, attempts + [Last(attempts) + SEND_RETRY_INTERVAL_MS], next, next + 1);
    RefreshAnswered(g2);
    var g3 := g2.(pending := g2.pending[next + 1 := RefreshThisPeer], nextRequest := next + 2);
    Silent(g0);
    InSequence(g0, g0, g1, g2, g3, g2.(nextRequest := next + 2), Retry(r, next));
  }

  /** The k-th attempt of a send that keeps failing, 20 ms apart. */
  function Times(k: nat): seq<int> {
    seq(k, i requires 0 <= i < k => SEND_RETRY_INTERVAL_MS * i)
  }

  lemma {:induction false} KeepsTrying(uri: Uri, payload: Payload, k: nat, more: nat, r: nat, next: nat)
    returns (inputs: seq<Input>)
    requires 1 <= k && k + more <= 1002 && r < next
    ensures Run(Trying(uri, payload, Times(k), r, next), inputs).Done?
    ensures var g := Run(Trying(uri, payload, Times(k), r, next), inputs).g;
            |g.history| == 1 && |g.history[0].attempts| == k + more
    decreases more
  {
    if more == 0 {
      inputs := [];
    } else {
      hide ProcessConcrete;
      OneMoreTry(uri, payload, Times(k), r, next);
      assert Times(k) + [Last(Times(k)) + SEND_RETRY_INTERVAL_MS] == Times(k + 1);
      var rest := KeepsTrying(uri, payload, k + 1, more - 1, next, next + 2);
      inputs := [Retry(r, next)] + rest;
      assert inputs[1..] == rest;
    }
  }

  function FirstTry(uri: Uri, payload: Payload): Input {
    Input([], [Bootstrap(uri, payload, AT_ONCE)], [], [], [], [], AT_ONCE, [Answer(1, ThisPeer(AT_ONCE), AT_ONCE)], [])
  }

  lemma FirstAttempt(uri: Uri, payload: Payload)
    ensures ProcessConcrete(INITIAL, FirstTry(uri, payload)) == Done(Trying(uri, payload, Times(1), 0, 2), true)
  {
    var g := Trying(uri, payload, Times(1), 0, 1);
    BootstrapEncodes(INITIAL, uri, payload);
    RefreshAnswered(g);
    assert ALL_MEMBERS - {MessageEncoding} + {MessageEncoding} == ALL_MEMBERS;
    assert RunPhase(g, Callbacks(MessageEncoding, [])) == Done(g, true);
    assert RunPhase(g, PendingSends([])) == Done(g, true);
    hide RunPhase;
    var g3 := g.(pending := g.pending[1 := RefreshThisPeer], nextRequest := 2);
    InSequence(INITIAL, g, g, g, g3, g.(nextRequest := 2), FirstTry(uri, payload));
  }

  lemma OneMessage(g: Gw, message: Drained, g': Gw)
    requires HandleOne(g, message) == Done(g', true)
    ensures RunPhase(g, Messages([message])) == Done(g', true)
  {
    assert [message][1..] == [];
    assert HandleAll(g', []) == Done(g', true);
  }

  lemma BootstrapEncodes(g: Gw, uri: Uri, payload: Payload)
    requires g == Gw(ALL_MEMBERS, [], map[], [], 0, 0, [])
    ensures RunPhase(g, Messages([Bootstrap(uri, payload, AT_ONCE)])) ==
            Done(Trying(uri, payload, Times(1), 0, 1), true)
  {
    hide RunPhase;
    hide StartFull;
    StartEncodes(g, uri, payload, AT_ONCE);
    assert Times(1) == [0];
    assert Last(Times(1)) == 0;
    OneMessage(g, Bootstrap(uri, payload, AT_ONCE), Trying(uri, payload, Times(1), 0, 1));
  }

  lemma StartEncodes(g: Gw, uri: Uri, payload: Payload, env: Env)
    requires MessageEncoding in g.attached && g.history == [] && env.d0 == env.d1 == 0 && !env.fails
    ensures StartFull(g, uri, payload, env) ==
              Done(g.(history := [History(g.clock, payload, FullLow(uri), Some(uri), [g.clock])],
                      nextRequest := g.nextRequest + 1,
                      pending := g.pending[g.nextRequest :=
                        Encode(Send(0, FullLow(uri), payload, g.clock, g.clock + SEND_RETRY_TIMEOUT_MS))]), true)
  {
    var h := History(g.clock, payload, FullLow(uri), Some(uri), []);
    assert [] + [h] == [h] && [] + [g.clock] == [g.clock];
    assert [h][0 := h.(attempts := [g.clock])] == [h.(attempts := [g.clock])];
  }

  /** The retry bound is exact: this run encodes one send 1002 times. */
  lemma RetryBoundIsReached(uri: Uri, payload: Payload) returns (inputs: seq<Input>)
    ensures Run(INITIAL, inputs).Done?
    ensures |Run(INITIAL, inputs).g.history| == 1 && |Run(INITIAL, inputs).g.history[0].attempts| == 1002
  {
    hide ProcessConcrete;
    FirstAttempt(uri, payload);
    var rest := KeepsTrying(uri, payload, 1, 1001, 0, 2);
    inputs := [FirstTry(uri, payload)] + rest;
    assert inputs[1..] == rest;
  }

  lemma DrainOne(g: Gw, send: Send, env: Env, g': Gw)
    requires CheckDispatch(g, send, env) == Done(g', true)
    ensures DispatchAll(g, [send], [env], true) == Done(g', true)
  {
    assert [send][1..] == [] && [env][1..] == [];
    assert DispatchAll(g', [], [], true) == Done(g', true);
  }

  // ----- The guard -----

  /** A message arrives, and the encoder decodes it as a ping. */
  function PingAnswer(pong: Payload): Answer {
    Answer(0, Decoded(Ping(pong)), AT_ONCE)
  }

  function PingInput(uri: Uri, pong: Payload): Input {
    Input([], [], [], [ReceivedData(uri, AT_ONCE)], [PingAnswer(pong)], [], AT_ONCE, [], [])
  }

  /** The gateway when the encoder is about to run its callbacks. */
  function BeforePing(uri: Uri): Gw {
    INITIAL.(pending := map[0 := Decode(uri)], nextRequest := 1)
  }

  /** The same while it runs them. */
  function Decoding(uri: Uri): Gw {
    BeforePing(uri).(attached := ALL_MEMBERS - {MessageEncoding})
  }

  /** The gateway when the reply to the ping is about to be sent, and that reply. */
  function AtGuard(uri: Uri, pong: Payload): Gw {
    INITIAL.(attached := ALL_MEMBERS - {MessageEncoding}, nextRequest := 1,
             history := [History(0, pong, FullLow(uri), Some(uri), [])])
  }

  function PongReply(uri: Uri, pong: Payload): Send {
    Send(0, FullLow(uri), pong, 0, SEND_RETRY_TIMEOUT_MS)
  }

  lemma ReceivesPing(uri: Uri, pong: Payload)
    ensures RunPhases(INITIAL, Phases(PingInput(uri, pong))[..4]) == Done(BeforePing(uri), true)
  {
    hide DetachRun;
    hide HandleAll;
    var p := Phases(PingInput(uri, pong));
    var last := [p[3]];
    assert p[..4] == [p[0]] + ([p[1]] + ([p[2]] + last));
    SkipPhase(INITIAL, p[0], [p[1]] + ([p[2]] + last));
    SkipPhase(INITIAL, p[1], [p[2]] + last);
    SkipPhase(INITIAL, p[2], last);
    assert HandleOne(INITIAL, ReceivedData(uri, AT_ONCE)) == Done(BeforePing(uri), true) by { Cell(MessageEncoding); }
    OneMessage(INITIAL, ReceivedData(uri, AT_ONCE), BeforePing(uri));
    DoPhase(INITIAL, p[3], [], BeforePing(uri));
    assert [p[3]] + [] == last;
  }

  /** It is the guard that keeps a reply to an incoming ping safe. A run reaches, by receiving one ping,
      a send while the encoder is out of its cell: guarded it waits in the queue, unguarded it would
      dereference the empty cell. */
  lemma GuardIsNeeded(uri: Uri, pong: Payload)
    ensures RunPhases(INITIAL, Phases(PingInput(uri, pong))[..4]) == Done(BeforePing(uri), true)
    ensures Phases(PingInput(uri, pong))[4] == Callbacks(MessageEncoding, [PingAnswer(pong)])
    ensures AnswerOne(Decoding(uri), MessageEncoding, PingAnswer(pong)) ==
            SendFull(AtGuard(uri, pong), PongReply(uri, pong), AT_ONCE)
    ensures SendFull(AtGuard(uri, pong), PongReply(uri, pong), AT_ONCE).Done?
    ensures EncodeNow(AtGuard(uri, pong), PongReply(uri, pong), AT_ONCE) == DetachPanic(MessageEncoding)
  {
    ReceivesPing(uri, pong);
    GuardStep(uri, pong);
  }

  lemma GuardStep(uri: Uri, pong: Payload)
    ensures AnswerOne(Decoding(uri), MessageEncoding, PingAnswer(pong)) ==
            SendFull(AtGuard(uri, pong), PongReply(uri, pong), AT_ONCE)
  {
    hide SendFull;
    var g := Decoding(uri);
    var g1 := g.(pending := g.pending - {0});
    assert g.pending[0] == Decode(uri) && g1.pending == map[];
    assert AnswerOne(g, MessageEncoding, PingAnswer(pong)) == StartFull(g1, uri, pong, AT_ONCE);
    assert g1.(clock := 0, history := [] + [History(0, pong, FullLow(uri), Some(uri), [])]) == AtGuard(uri, pong);
    assert AT_ONCE.(d0 := AT_ONCE.d1, d1 := AT_ONCE.d2) == AT_ONCE;
  }
}
