/** The legacy wrapper: messages of the engine go to the client under fresh ids, and the client's
    answers go back; a direct message also has its original request id put back. */
module Legacy {
  import opened Wrappers

  type Id(==, !new)
  type Body(==, !new)

  // ----- Tracker -----

  datatype Item<+T> = Item(value: Option<T>, expires: nat)

  function SetItem<T>(items: map<Id, Item<T>>, id: Id, value: Option<T>, expires: nat): map<Id, Item<T>> {
    items[id := Item(value, if id in items then items[id].expires else expires)]
  }

  function Expired<T>(items: map<Id, Item<T>>, now: nat): set<Id> {
    set id | id in items && items[id].expires <= now
  }

  class Tracker<T(==)> {
    var items: map<Id, Item<T>>
    const timeout: nat

    constructor (timeout: nat)
      ensures items == map[] && this.timeout == timeout
    {
      items := map[];
      this.timeout := timeout;
    }

    /** `id` is a new random name. */
    method Reserve(id: Id, now: nat)
      modifies this
      ensures items == old(items)[id := Item(None, now + timeout)]
    {
      items := items[id := Item(None, now + timeout)];
    }

    method Set(id: Id, value: Option<T>, now: nat) returns (before: Option<T>)
      modifies this
      ensures items == SetItem(old(items), id, value, now + timeout)
      ensures before == if id in old(items) then old(items)[id].value else None
    {
      if id in items {
        before := items[id].value;
        items := items[id := items[id].(value := value)];
      } else {
        before := None;
        items := items[id := Item(value, now + timeout)];
      }
    }

    method Remove(id: Id) returns (value: Option<T>)
      modifies this
      ensures items == old(items) - {id}
      ensures value == if id in old(items) then old(items)[id].value else None
    {
      value := if id in items then items[id].value else None;
      items := items - {id};
    }

    /** Removes exactly the ids whose time is up, and returns each once with its value. */
    method ProcessTimeouts(now: nat) returns (out: seq<(Id, Option<T>)>)
      modifies this
      ensures items == old(items) - Expired(old(items), now)
      ensures forall i, j :: 0 <= i < j < |out| ==> out[i].0 != out[j].0
      ensures forall id, v :: (id, v) in out <==> id in Expired(old(items), now) && v == old(items)[id].value
    {
      out := [];
      ghost var before := items;
      var todo := Expired(items, now);
      ghost var due := todo;
      while todo != {}
        invariant todo <= due == Expired(before, now)
        invariant items == before - (due - todo)
        invariant forall i :: 0 <= i < |out| ==> out[i].0 in due - todo && out[i].1 == before[out[i].0].value
        invariant forall i, j :: 0 <= i < j < |out| ==> out[i].0 != out[j].0
        invariant forall id :: id in due - todo ==> (id, before[id].value) in out
        decreases |todo|
      {
        var id :| id in todo;
        var value := Remove(id);
        out := out + [(id, value)];
        todo := todo - {id};
      }
    }
  }

  // ----- Messages -----

  /** Kinds of engine messages: direct messages, the others that carry the tracked id to the client,
      and those the wrapper passes on with the id they came with. */
  datatype Kind = DirectMessage | Relabelled | Untouched

  /** An engine message; its handle is absent for an event, which wants no response. */
  datatype Incoming = Incoming(handle: Option<Id>, kind: Kind, requestId: Id, body: Body)

  datatype ToClient = ToClient(kind: Kind, requestId: Id, body: Body)

  /** What the client posts: a direct-message result, another result, or something that is no result
      and does not convert to one. */
  datatype ResultKind = DirectResult | OtherResult | NoResult

  datatype Answer = Answer(kind: ResultKind, requestId: Id, body: Body)

  datatype Response = Response(handle: Id, answer: Answer)

  datatype Status = Posted | NotConverted | NoGhostMessage | SendFailed

  // ----- The wrapper as a value -----

  datatype State = State(tracked: map<Id, Item<Option<Id>>>, requestIds: map<Id, Id>, sent: seq<Response>)

  const TIMEOUT := 2000

  function Deliver(s: State, m: Incoming, id: Id, now: nat): State {
    s.(tracked := s.tracked[id := Item(Some(m.handle), now + TIMEOUT)],
       requestIds := if m.kind == DirectMessage then s.requestIds[id := m.requestId] else s.requestIds)
  }

  function Restored(s: State, a: Answer): Answer {
    if a.kind == DirectResult && a.requestId in s.requestIds then a.(requestId := s.requestIds[a.requestId]) else a
  }

  /** `open` says whether the engine still listens. */
  function Post(s: State, a: Answer, open: bool): (State, Status) {
    if a.kind == NoResult then (s, NotConverted)
    else if a.requestId !in s.tracked || s.tracked[a.requestId].value.None? then
      (s.(tracked := s.tracked - {a.requestId}), NoGhostMessage)
    else
      var handle := s.tracked[a.requestId].value.value;
      var s1 := s.(tracked := s.tracked - {a.requestId},
                   requestIds := if a.kind == DirectResult then s.requestIds - {a.requestId} else s.requestIds);
      if handle.None? then (s1, Posted)
      else if open then (s1.(sent := s.sent + [Response(handle.value, Restored(s, a))]), Posted)
      else (s1, SendFailed)
  }

  // ----- Runs -----

  datatype Event = Delivery(message: Incoming, id: Id, now: nat) | Posting(answer: Answer, open: bool)

  function Step(s: State, e: Event): State {
    match e
    case Delivery(m, id, now) => Deliver(s, m, id, now)
    case Posting(a, open) => Post(s, a, open).0
  }

  function Run(s: State, events: seq<Event>): State
    decreases |events|
  {
    if events == [] then s else Run(Step(s, events[0]), events[1..])
  }

  const START := State(map[], map[], [])

  // ----- The wrapper as an object -----

  class LegacyLib3h {
    const tracker: Tracker<Option<Id>>
    var requestIdMap: map<Id, Id>
    var sent: seq<Response>
    ghost var used: set<Id>

    /** Whatever is tracked or remembered was delivered under an id that was new then, and every tracked
        id has its message. */
    ghost predicate Valid()
      reads this, tracker
    {
      tracker.timeout == TIMEOUT && Inv(Abstract(), used)
    }

    ghost function Abstract(): State
      reads this, tracker
    {
      State(tracker.items, requestIdMap, sent)
    }

    constructor ()
      ensures Valid() && fresh(tracker) && Abstract() == START && used == {}
    {
      tracker := new Tracker(TIMEOUT);
      requestIdMap := map[];
      sent := [];
      used := {};
    }

    method InjectRequestId(m: Incoming, id: Id) returns (r: ToClient)
      modifies this`requestIdMap
      ensures r.kind == m.kind && r.body == m.body && r.requestId == if m.kind == Untouched then m.requestId else id
      ensures requestIdMap ==
              if m.kind == DirectMessage then old(requestIdMap)[id := m.requestId] else old(requestIdMap)
    {
      match m.kind
      case DirectMessage =>
        requestIdMap := requestIdMap[id := m.requestId];
        r := ToClient(m.kind, id, m.body);
      case Relabelled =>
        r := ToClient(m.kind, id, m.body);
      case Untouched =>
        r := ToClient(m.kind, m.requestId, m.body);
    }

    method DeliverOne(m: Incoming, id: Id, now: nat) returns (r: ToClient)
      requires Valid() && id !in used
      modifies this, tracker
      ensures Valid() && Abstract() == Deliver(old(Abstract()), m, id, now)
      ensures r.kind == m.kind && r.body == m.body && r.requestId == if m.kind == Untouched then m.requestId else id
      ensures used == old(used) + {id}
    {
      used := used + {id};
      tracker.Reserve(id, now);
      var _ := tracker.Set(id, Some(m.handle), now);
      r := InjectRequestId(m, id);
    }

    /** Hands drained messages to the client under the given new ids. Whatever happens next, the first
        answer the client posts under the id it was shown goes back to the message it was shown. */
    method Process(messages: seq<Incoming>, ids: seq<Id>, now: nat) returns (out: seq<ToClient>)
      requires Valid() && |ids| == |messages| && Fresh(Deliveries(messages, ids, now), used)
      modifies this, tracker
      ensures Valid() && used == Used(Deliveries(messages, ids, now), old(used))
      ensures Abstract() == Run(old(Abstract()), Deliveries(messages, ids, now))
      ensures LiveIds(Abstract()) <==> old(LiveIds(Abstract()))
      ensures |out| == |messages|
      ensures forall i :: 0 <= i < |out| ==> out[i].kind == messages[i].kind && out[i].body == messages[i].body
      ensures forall i :: 0 <= i < |out| && messages[i].kind == Untouched ==> out[i].requestId == messages[i].requestId
      ensures forall i :: 0 <= i < |out| && messages[i].kind != Untouched ==>
                out[i].requestId == ids[i] && RepliesReach(Abstract(), used, messages[i], out[i].requestId)
    {
      out := [];
      ghost var events := Deliveries(messages, ids, now);
      assert events[0..] == events;
      DeliveriesAreDisciplined(Abstract(), events);
      LiveFrom(Abstract(), events, used);
      AllReachBack(Abstract(), used, messages, ids, now);
      hide RepliesReach;
      for i := 0 to |messages|
        invariant Valid() && Fresh(events[i..], used) && Used(events[i..], used) == Used(events, old(used))
        invariant Run(Abstract(), events[i..]) == Run(old(Abstract()), events)
        invariant |out| == i
        invariant forall k :: 0 <= k < i ==> out[k].kind == messages[k].kind && out[k].body == messages[k].body
        invariant forall k :: 0 <= k < i ==>
                    out[k].requestId == if messages[k].kind == Untouched then messages[k].requestId else ids[k]
      {
        assert events[i..][0] == Delivery(messages[i], ids[i], now) && events[i..][1..] == events[i + 1..];
        var r := DeliverOne(messages[i], ids[i], now);
        out := out + [r];
      }
    }

    /** Only a mismatched answer leaves a remembered id without its message. */
    method PostAnswer(a: Answer, open: bool) returns (status: Status)
      requires Valid()
      modifies this, tracker
      ensures Valid() && used == old(used) && (Abstract(), status) == Post(old(Abstract()), a, open)
      ensures LiveIds(Abstract()) <==> old(LiveIds(Abstract())) && !Mismatch(old(Abstract()), Posting(a, open))
    {
      StepLive(Abstract(), Posting(a, open), used);
      if a.kind == NoResult {
        return NotConverted;
      }
      var message := tracker.Remove(a.requestId);
      if message.None? {
        return NoGhostMessage;
      }
      var answer := a;
      if a.kind == DirectResult {
        if a.requestId in requestIdMap {
          answer := a.(requestId := requestIdMap[a.requestId]);
        }
        requestIdMap := requestIdMap - {a.requestId};
      }
      status := Posted;
      if message.value.Some? {
        if open {
          sent := sent + [Response(message.value.value, answer)];
        } else {
          status := SendFailed;
        }
      }
    }
  }

  function Deliveries(messages: seq<Incoming>, ids: seq<Id>, now: nat): seq<Event>
    requires |ids| == |messages|
  {
    seq(|messages|, i requires 0 <= i < |messages| => Delivery(messages[i], ids[i], now))
  }

  // ----- Runs with fresh ids -----

  /** Delivered ids are new each time. */
  predicate Fresh(events: seq<Event>, used: set<Id>)
    decreases |events|
  {
    events == [] ||
    if events[0].Delivery? then events[0].id !in used && Fresh(events[1..], used + {events[0].id})
    else Fresh(events[1..], used)
  }

  function Used(events: seq<Event>, used: set<Id>): set<Id>
    decreases |events|
  {
    if events == [] then used
    else Used(events[1..], if events[0].Delivery? then used + {events[0].id} else used)
  }

  predicate Inv(s: State, used: set<Id>) {
    s.tracked.Keys <= used && s.requestIds.Keys <= used && forall id :: id in s.tracked ==> s.tracked[id].value.Some?
  }

  lemma {:induction false} RunKeepsInv(s: State, events: seq<Event>, used: set<Id>)
    requires Inv(s, used) && Fresh(events, used)
    ensures Inv(Run(s, events), Used(events, used)) && used <= Used(events, used)
    decreases |events|
  {
    if events != [] {
      RunKeepsInv(Step(s, events[0]), events[1..], if events[0].Delivery? then used + {events[0].id} else used);
    }
  }

  /** Every remembered original id belongs to a message that can still be answered. */
  predicate LiveIds(s: State) {
    s.requestIds.Keys <= s.tracked.Keys
  }

  /** A waiting direct message is answered with another kind of result. */
  predicate Mismatch(s: State, e: Event) {
    e.Posting? && e.answer.requestId in s.tracked && e.answer.requestId in s.requestIds && e.answer.kind == OtherResult
  }

  predicate Disciplined(s: State, events: seq<Event>)
    decreases |events|
  {
    events == [] || (!Mismatch(s, events[0]) && Disciplined(Step(s, events[0]), events[1..]))
  }

  lemma {:induction false} DeliveriesAreDisciplined(s: State, events: seq<Event>)
    requires forall i :: 0 <= i < |events| ==> events[i].Delivery?
    ensures Disciplined(s, events)
    decreases |events|
  {
    if events != [] {
      DeliveriesAreDisciplined(Step(s, events[0]), events[1..]);
    }
  }

  lemma StepLive(s: State, e: Event, used: set<Id>)
    requires Inv(s, used) && Fresh([e], used)
    ensures LiveIds(Step(s, e)) <==> LiveIds(s) && !Mismatch(s, e)
  {
    if !LiveIds(s) {
      var id :| id in s.requestIds && id !in s.tracked;
      assert id in Step(s, e).requestIds && id !in Step(s, e).tracked;
    }
    if Mismatch(s, e) {
      assert e.answer.requestId in Step(s, e).requestIds;
    }
  }

  lemma {:induction false} LiveFrom(s: State, events: seq<Event>, used: set<Id>)
    requires Inv(s, used) && Fresh(events, used)
    ensures LiveIds(Run(s, events)) <==> LiveIds(s) && Disciplined(s, events)
    decreases |events|
  {
    if events != [] {
      var e := events[0];
      var used' := if e.Delivery? then used + {e.id} else used;
      assert [e][1..] == [];
      StepLive(s, e, used);
      RunKeepsInv(s, [e], used);
      assert Run(s, [e]) == Step(s, e) && Used([e], used) == used';
      LiveFrom(Step(s, e), events[1..], used');
    }
  }

  /** Over every run, each remembered id has a live message exactly when no waiting direct message was
      ever answered with another kind of result; one such answer leaks its id for good. */
  lemma LiveIdsExactlyWhen(events: seq<Event>)
    requires Fresh(events, {})
    ensures LiveIds(Run(START, events)) <==> Disciplined(START, events)
  {
    LiveFrom(START, events, {});
  }

  predicate Answers(e: Event, id: Id) {
    e.Posting? && e.answer.requestId == id && e.answer.kind != NoResult
  }

  /** Until it is answered, a delivered message stays tracked with its handle and original id. */
  lemma {:induction false} Waits(s: State, events: seq<Event>, used: set<Id>, id: Id)
    requires Inv(s, used) && Fresh(events, used) && id in s.tracked
    requires forall i :: 0 <= i < |events| ==> !Answers(events[i], id)
    ensures var s' := Run(s, events);
            id in s'.tracked && s'.tracked[id] == s.tracked[id] && (id in s'.requestIds <==> id in s.requestIds) &&
            (id in s.requestIds ==> s'.requestIds[id] == s.requestIds[id])
    decreases |events|
  {
    if events != [] {
      var e := events[0];
      assert [e][1..] == [];
      assert !Answers(e, id);
      RunKeepsInv(s, [e], used);
      assert Run(s, [e]) == Step(s, e);
      Waits(Step(s, e), events[1..], Used([e], used), id);
    }
  }

  /** An answered id is never tracked again. */
  lemma {:induction false} StaysAnswered(s: State, events: seq<Event>, used: set<Id>, id: Id)
    requires Inv(s, used) && Fresh(events, used) && id in used && id !in s.tracked
    ensures id !in Run(s, events).tracked
    decreases |events|
  {
    if events != [] {
      var e := events[0];
      assert [e][1..] == [];
      RunKeepsInv(s, [e], used);
      assert Run(s, [e]) == Step(s, e);
      StaysAnswered(Step(s, e), events[1..], Used([e], used), id);
    }
  }

  lemma {:induction false} FreshParts(a: seq<Event>, b: seq<Event>, used: set<Id>)
    requires Fresh(a + b, used)
    ensures Fresh(a, used) && Fresh(b, Used(a, used))
    decreases |a|
  {
    if a == [] {
      assert a + b == b;
    } else {
      assert (a + b)[0] == a[0] && (a + b)[1..] == a[1..] + b;
      FreshParts(a[1..], b, if a[0].Delivery? then used + {a[0].id} else used);
    }
  }

  lemma {:induction false} RunParts(s: State, a: seq<Event>, b: seq<Event>)
    ensures Run(s, a + b) == Run(Run(s, a), b)
    decreases |a|
  {
    if a == [] {
      assert a + b == b;
    } else {
      assert (a + b)[0] == a[0] && (a + b)[1..] == a[1..] + b;
      RunParts(Step(s, a[0]), a[1..], b);
    }
  }

  /** What the first answer sends: a direct-message result to a direct message carries the request id
      the message came with, any other answer the id the client gave. */
  function Upstream(m: Incoming, a: Answer): Answer {
    if a.kind == DirectResult && m.kind == DirectMessage then a.(requestId := m.requestId) else a
  }

  /** The message waits under `id`, with what is needed to answer it. */
  predicate Waiting(s: State, m: Incoming, id: Id) {
    id in s.tracked && s.tracked[id].value == Some(m.handle) && (id in s.requestIds <==> m.kind == DirectMessage) &&
    (m.kind == DirectMessage ==> s.requestIds[id] == m.requestId)
  }

  lemma AfterDelivery(s: State, used: set<Id>, pre: seq<Event>, m: Incoming, id: Id, now: nat, mid: seq<Event>)
    requires Inv(s, used) && Fresh(pre + ([Delivery(m, id, now)] + mid), used)
    requires forall i :: 0 <= i < |mid| ==> !Answers(mid[i], id)
    ensures Waiting(Run(s, pre + ([Delivery(m, id, now)] + mid)), m, id)
  {
    var d := Delivery(m, id, now);
    FreshParts(pre, [d] + mid, used);
    RunParts(s, pre, [d] + mid);
    RunKeepsInv(s, pre, used);
    var s1, used1 := Run(s, pre), Used(pre, used);
    assert ([d] + mid)[1..] == mid;
    assert Run(s1, [d] + mid) == Run(Step(s1, d), mid);
    Waits(Step(s1, d), mid, used1 + {id}, id);
  }

  /** The answer is taken and, if the message wants one and the engine listens, one response goes out:
      to the message's own handle, under the request id the message came with if both are direct. */
  ghost predicate ReachesBack(s: State, m: Incoming, a: Answer, up: bool) {
    Post(s, a, up).1 == (if up || m.handle.None? then Posted else SendFailed) &&
    Post(s, a, up).0.sent == s.sent + if up && m.handle.Some? then [Response(m.handle.value, Upstream(m, a))] else []
  }

  /** In every continuation the first answer posted under `id` reaches back to message `m`. */
  ghost predicate RepliesReach(s: State, used: set<Id>, m: Incoming, id: Id) {
    forall mid: seq<Event>, a: Answer, up: bool ::
      (Fresh(mid, used) && (forall i :: 0 <= i < |mid| ==> !Answers(mid[i], id)) &&
       a.requestId == id && a.kind != NoResult) ==>
        ReachesBack(Run(s, mid), m, a, up)
  }

  lemma WaitingReaches(s: State, m: Incoming, a: Answer, up: bool)
    requires Waiting(s, m, a.requestId) && a.kind != NoResult
    ensures ReachesBack(s, m, a, up)
  {
  }

  lemma {:induction false} FreshJoins(a: seq<Event>, b: seq<Event>, used: set<Id>)
    requires Fresh(a, used) && Fresh(b, Used(a, used))
    ensures Fresh(a + b, used)
    decreases |a|
  {
    if a == [] {
      assert a + b == b;
    } else {
      assert (a + b)[0] == a[0] && (a + b)[1..] == a[1..] + b;
      FreshJoins(a[1..], b, if a[0].Delivery? then used + {a[0].id} else used);
    }
  }

  lemma OneReachesBack(s: State, used: set<Id>, messages: seq<Incoming>, ids: seq<Id>, now: nat, i: nat)
    requires i < |messages| == |ids| && Inv(s, used) && Fresh(Deliveries(messages, ids, now), used)
    ensures var all := Deliveries(messages, ids, now);
            RepliesReach(Run(s, all), Used(all, used), messages[i], ids[i])
  {
    var all, m, id := Deliveries(messages, ids, now), messages[i], ids[i];
    forall mid: seq<Event>, a: Answer, up: bool |
      Fresh(mid, Used(all, used)) && (forall k :: 0 <= k < |mid| ==> !Answers(mid[k], id)) &&
      a.requestId == id && a.kind != NoResult
      ensures ReachesBack(Run(Run(s, all), mid), m, a, up)
    {
      var pre, post := all[..i], all[i + 1..] + mid;
      FreshJoins(all, mid, used);
      RunParts(s, all, mid);
      assert all + mid == pre + ([Delivery(m, id, now)] + post);
      AfterDelivery(s, used, pre, m, id, now, post);
      WaitingReaches(Run(s, all + mid), m, a, up);
    }
  }

  /** The loop is closed for every message of a batch. */
  lemma AllReachBack(s: State, used: set<Id>, messages: seq<Incoming>, ids: seq<Id>, now: nat)
    requires |messages| == |ids| && Inv(s, used) && Fresh(Deliveries(messages, ids, now), used)
    ensures var all := Deliveries(messages, ids, now);
            forall i :: 0 <= i < |messages| ==> RepliesReach(Run(s, all), Used(all, used), messages[i], ids[i])
  {
    hide RepliesReach;
    forall i | 0 <= i < |messages|
      ensures var all := Deliveries(messages, ids, now);
              RepliesReach(Run(s, all), Used(all, used), messages[i], ids[i])
    {
      OneReachesBack(s, used, messages, ids, now, i);
    }
  }

  /** In every run the first answer to a delivered message goes to that message's handle, with the
      original request id for a direct message; every later answer is refused and changes nothing. */
  lemma AnsweredOnce(pre: seq<Event>, m: Incoming, id: Id, now: nat, mid: seq<Event>, a: Answer, up: bool,
                     more: seq<Event>, again: Answer, open: bool)
    requires Fresh(pre + ([Delivery(m, id, now)] + mid) + ([Posting(a, up)] + more), {})
    requires forall i :: 0 <= i < |mid| ==> !Answers(mid[i], id)
    requires a.requestId == id && a.kind != NoResult && again.requestId == id && again.kind != NoResult
    ensures ReachesBack(Run(START, pre + ([Delivery(m, id, now)] + mid)), m, a, up)
    ensures var s := Run(START, pre + ([Delivery(m, id, now)] + mid) + ([Posting(a, up)] + more));
            Post(s, again, open) == (s, NoGhostMessage)
  {
    var p, front, back := Posting(a, up), pre + ([Delivery(m, id, now)] + mid), [Posting(a, up)] + more;
    FreshParts(front, back, {});
    AfterDelivery(START, {}, pre, m, id, now, mid);
    RunParts(START, front, back);
    RunKeepsInv(START, front, {});
    var s, used := Run(START, front), Used(front, {});
    assert back[1..] == more && Run(s, back) == Run(Step(s, p), more);
    StaysAnswered(Step(s, p), more, used, id);
    var end := Run(START, front + back);
    assert end.tracked - {id} == end.tracked;
  }

  /** An id remembered without its message is never forgotten and never answered. */
  lemma {:induction false} StaysLeaked(s: State, events: seq<Event>, used: set<Id>, id: Id)
    requires Inv(s, used) && Fresh(events, used) && id in s.requestIds && id !in s.tracked
    ensures var s' := Run(s, events);
            id in s'.requestIds && s'.requestIds[id] == s.requestIds[id] && id !in s'.tracked
    decreases |events|
  {
    if events != [] {
      var e := events[0];
      assert [e][1..] == [];
      RunKeepsInv(s, [e], used);
      assert Run(s, [e]) == Step(s, e);
      StaysLeaked(Step(s, e), events[1..], Used([e], used), id);
    }
  }

  /** A waiting direct message answered with another kind of result, in whatever state: in every
      continuation its original id is still remembered and no answer can clear it. */
  lemma MismatchLeaks(s: State, e: Event, more: seq<Event>, used: set<Id>)
    requires Inv(s, used) && Mismatch(s, e) && Fresh(more, used)
    ensures var s', id := Run(s, [e] + more), e.answer.requestId;
            id in s'.requestIds && s'.requestIds[id] == s.requestIds[id] && id !in s'.tracked
  {
    assert [e][1..] == [] && ([e] + more)[1..] == more;
    RunKeepsInv(s, [e], used);
    assert Run(s, [e]) == Step(s, e) && Run(s, [e] + more) == Run(Step(s, e), more);
    StaysLeaked(Step(s, e), more, used, e.answer.requestId);
  }

  /** It does happen: a direct message is delivered, and the client answers with a fetch result. */
  lemma MismatchHappens(m: Incoming, id: Id, now: nat, a: Answer, open: bool)
    requires m.kind == DirectMessage && a.requestId == id && a.kind == OtherResult
    ensures Fresh([Delivery(m, id, now)], {}) && Mismatch(Run(START, [Delivery(m, id, now)]), Posting(a, open))
  {
    var d := Delivery(m, id, now);
    assert [d][1..] == [] && Run(START, [d]) == Step(START, d);
  }
}
