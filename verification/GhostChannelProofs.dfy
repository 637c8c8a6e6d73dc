/** What holds of a ghost channel over every interleaving of its two endpoints. */
module GhostChannelProofs {
  import opened GhostChannel
  import opened Wrappers

  // ----- Counting ids -----

  lemma {:induction false} WireCountAppend(wires: seq<Wire>, wire: Wire, id: nat)
    ensures WireCount(wires + [wire], id) == WireCount(wires, id) + Names(wire, id)
  {
    if wires != [] {
      assert (wires + [wire])[1..] == wires[1..] + [wire];
      WireCountAppend(wires[1..], wire, id);
    }
  }

  lemma {:induction false} MessageCountAppend(a: seq<Message>, b: seq<Message>, id: nat)
    ensures MessageCount(a + b, id) == MessageCount(a, id) + MessageCount(b, id)
  {
    if a == [] {
      assert a + b == b;
    } else {
      assert (a + b)[1..] == a[1..] + b;
      MessageCountAppend(a[1..], b, id);
    }
  }

  lemma {:induction false} RunCountAppend(runs: seq<Run>, run: Run, id: nat)
    ensures RunCount(runs + [run], id) == RunCount(runs, id) + (if run.id == id then 1 else 0)
  {
    if runs != [] {
      assert (runs + [run])[1..] == runs[1..] + [run];
      RunCountAppend(runs[1..], run, id);
    }
  }

  lemma MessageCountRemove(messages: seq<Message>, i: nat, id: nat)
    requires i < |messages|
    ensures MessageCount(messages, id) ==
              MessageCount(messages[..i] + messages[i + 1..], id) + (if messages[i].id == Some(id) then 1 else 0)
  {
    var before, after := messages[..i], messages[i + 1..];
    assert messages == before + ([messages[i]] + after);
    MessageCountAppend(before, [messages[i]] + after, id);
    MessageCountAppend([messages[i]], after, id);
    MessageCountAppend(before, after, id);
    assert [messages[i]][1..] == [];
  }

  lemma {:induction false} WireCounted(wires: seq<Wire>, i: nat, id: nat)
    requires i < |wires| && Names(wires[i], id) == 1
    ensures WireCount(wires, id) >= 1
  {
    if i > 0 {
      WireCounted(wires[1..], i - 1, id);
    }
  }

  lemma {:induction false} MessageCounted(messages: seq<Message>, i: nat, id: nat)
    requires i < |messages| && messages[i].id == Some(id)
    ensures MessageCount(messages, id) >= 1
  {
    if i > 0 {
      MessageCounted(messages[1..], i - 1, id);
    }
  }

  lemma {:induction false} RunCounted(runs: seq<Run>, i: nat)
    requires i < |runs|
    ensures RunCount(runs, runs[i].id) >= 1
  {
    if i > 0 {
      RunCounted(runs[1..], i - 1);
    }
  }

  lemma {:induction false} RunFound(runs: seq<Run>, id: nat) returns (i: nat)
    requires RunCount(runs, id) >= 1
    ensures i < |runs| && runs[i].id == id
  {
    if runs[0].id == id {
      i := 0;
    } else {
      i := RunFound(runs[1..], id);
      i := i + 1;
    }
  }

  // ----- Counts over a step -----

  /** Whether a step brings request `id` into being, whether it makes a handle on it, and whether it
      ends that handle. */
  function Born(step: Step, id: nat): nat {
    if step.Ask? && step.id == id then 1 else 0
  }

  function Made(s: System, step: Step, id: nat): nat {
    if step.Ask? && s.At(Other(step.from)).open then Born(step, id) else 0
  }

  function HeldAt(half: Half, i: nat, id: nat): nat {
    if i < |half.held| && half.held[i].id == Some(id) then 1 else 0
  }

  function Ended(s: System, step: Step, id: nat): nat {
    match step
    case Drop(from, i) => HeldAt(s.At(from), i, id)
    case Respond(from, i, _) => if s.At(Other(from)).open then 0 else HeldAt(s.At(from), i, id)
    case Receive(at, _) => if s.At(at).inbox != [] then Consumed(s.At(at).inbox[0], id) else 0
    case _ => 0
  }

  function Consumed(wire: Wire, id: nat): nat {
    if wire.Response? && wire.id == id then 1 else 0
  }

  lemma SentCounts(half: Half, wire: Wire, id: nat)
    ensures HandlesAt(Sent(half, wire), id) == HandlesAt(half, id) + if half.open then Names(wire, id) else 0
    ensures CallbacksAt(Sent(half, wire), id) == CallbacksAt(half, id)
  {
    WireCountAppend(half.inbox, wire, id);
  }

  lemma AskedCounts(half: Half, asked: nat, deadline: int, id: nat)
    requires asked !in half.endpoint.pending
    ensures HandlesAt(Asked(half, asked, deadline), id) == HandlesAt(half, id)
    ensures CallbacksAt(Asked(half, asked, deadline), id) == CallbacksAt(half, id) + (if id == asked then 1 else 0)
  {
  }

  lemma ReleasedCounts(half: Half, i: nat, id: nat)
    requires i < |half.held|
    ensures HandlesAt(Released(half, i), id) + HeldAt(half, i, id) == HandlesAt(half, id)
    ensures CallbacksAt(Released(half, i), id) == CallbacksAt(half, id)
  {
    MessageCountRemove(half.held, i, id);
  }

  lemma ReceivedCounts(half: Half, now: int, failing: set<nat>, id: nat)
    requires half.inbox != []
    ensures HandlesAt(ReceivedAt(half, now, failing), id) + Consumed(half.inbox[0], id) == HandlesAt(half, id)
    ensures CallbacksAt(ReceivedAt(half, now, failing), id) == CallbacksAt(half, id)
  {
    var wire, e := half.inbox[0], half.endpoint;
    if wire.Request? {
      var message := Message(wire.request, wire.payload);
      MessageCountAppend(e.outbox, [message], id);
      assert [message][1..] == [];
    } else if wire.id in e.pending {
      RunCountAppend(e.runs, Run(wire.id, Answered(wire.answer), now), id);
    }
  }

  lemma ExpiredCounts(half: Half, expired: nat, now: int, id: nat)
    ensures HandlesAt(ExpiredAt(half, expired, now), id) == HandlesAt(half, id)
    ensures CallbacksAt(ExpiredAt(half, expired, now), id) == CallbacksAt(half, id)
  {
    RunCountAppend(half.endpoint.runs, Run(expired, TimedOut, now), id);
  }

  lemma DrainedCounts(half: Half, id: nat)
    ensures HandlesAt(DrainedAt(half), id) == HandlesAt(half, id)
    ensures CallbacksAt(DrainedAt(half), id) == CallbacksAt(half, id)
  {
    MessageCountAppend(half.held, half.endpoint.outbox, id);
  }

  lemma ClosedCounts(half: Half, id: nat)
    ensures HandlesAt(half.(open := false), id) == HandlesAt(half, id)
    ensures CallbacksAt(half.(open := false), id) == CallbacksAt(half, id)
  {
  }

  /** Handles are neither copied nor forged: asking makes one exactly if the other endpoint exists, a
      consumed response, a dropped message or an answer to an endpoint that is gone ends one, everything
      else only moves them. Callbacks are neither lost nor run twice: asking creates one, sent or not,
      everything else at most moves it from the tracker to the log. */
  lemma CountsStep(s: System, step: Step, id: nat)
    requires Enabled(s, step)
    requires step.Ask? ==> step.id !in s.At(step.from).endpoint.pending
    ensures Handles(Apply(s, step), id) + Ended(s, step, id) == Handles(s, id) + Made(s, step, id)
    ensures Callbacks(Apply(s, step), id) == Callbacks(s, id) + Born(step, id)
  {
    hide HandlesAt;
    hide CallbacksAt;
    hide Sent;
    hide Asked;
    hide ReceivedAt;
    hide ExpiredAt;
    hide DrainedAt;
    hide Released;
    match step
    case Ask(from, asked, payload, timeout) =>
      AskedCounts(s.At(from), asked, s.clock + timeout, id);
      SentCounts(s.At(Other(from)), Request(Some(asked), payload), id);
    case Publish(from, payload) =>
      SentCounts(s.At(Other(from)), Request(None, payload), id);
    case Receive(at, failing) =>
      ReceivedCounts(s.At(at), s.clock, failing, id);
    case Expire(at, expired) =>
      ExpiredCounts(s.At(at), expired, s.clock, id);
    case Drain(at) =>
      DrainedCounts(s.At(at), id);
    case Respond(from, i, answer) =>
      ReleasedCounts(s.At(from), i, id);
      if s.At(from).held[i].id.Some? && s.At(Other(from)).open {
        SentCounts(s.At(Other(from)), Response(s.At(from).held[i].id.value, answer), id);
      }
    case Drop(from, i) =>
      ReleasedCounts(s.At(from), i, id);
    case Close(at) =>
      ClosedCounts(s.At(at), id);
    case Tick(_) =>
  }

  // ----- What each side knows stays true -----

  /** `s'` only adds to what `s` remembers; `touched` is the request being answered, if any. */
  ghost predicate Later(s: System, s': System, touched: Option<nat>) {
    s.clock <= s'.clock &&
    (forall id :: id in s.issued ==> id in s'.issued && s'.issued[id] == s.issued[id]) &&
    (forall id :: id in s.answers && touched != Some(id) ==> id in s'.answers && s'.answers[id] == s.answers[id]) &&
    (forall id :: id in s'.answers && touched != Some(id) ==> id in s.answers) &&
    (forall id :: id in s.issued ==> Handles(s', id) <= Handles(s, id)) &&
    (touched.Some? ==> Handles(s, touched.value) >= 1)
  }

  lemma MessageStill(s: System, s': System, touched: Option<nat>, m: Message, at: Side)
    requires Later(s, s', touched) && Unanswered(s, m, at) && (m.id.Some? ==> m.id != touched)
    ensures Unanswered(s', m, at)
  {
  }

  lemma WireStill(s: System, s': System, touched: Option<nat>, wire: Wire, to: Side)
    requires Later(s, s', touched) && WireOk(s, wire, to) && (touched.Some? ==> Names(wire, touched.value) == 0)
    ensures WireOk(s', wire, to)
  {
  }

  lemma RunStill(s: System, s': System, touched: Option<nat>, run: Run, at: Side)
    requires Later(s, s', touched) && RunOk(s, run, at)
    ensures RunOk(s', run, at)
  {
  }

  ghost predicate PendingOk(s: System, id: nat, deadline: int, side: Side) {
    IssuedBy(s, id, side) && s.issued[id].deadline == deadline
  }

  /** A side stays fine when everything on it was there before and untouched, or is fine now. */
  lemma SideFrame(s: System, s': System, side: Side, touched: Option<nat>)
    requires SideOk(s, side) && Later(s, s', touched)
    requires forall w :: w in s'.At(side).inbox ==>
               (w in s.At(side).inbox && (touched.Some? ==> Names(w, touched.value) == 0)) || WireOk(s', w, side)
    requires forall m :: m in s'.At(side).endpoint.outbox ==>
               (m in s.At(side).endpoint.outbox && (m.id.Some? ==> m.id != touched)) || Unanswered(s', m, side)
    requires forall m :: m in s'.At(side).held ==>
               (m in s.At(side).held && (m.id.Some? ==> m.id != touched)) || Unanswered(s', m, side)
    requires forall id :: id in s'.At(side).endpoint.pending ==>
               (id in s.At(side).endpoint.pending &&
                s.At(side).endpoint.pending[id] == s'.At(side).endpoint.pending[id]) ||
               PendingOk(s', id, s'.At(side).endpoint.pending[id], side)
    requires forall r :: r in s'.At(side).endpoint.runs ==> r in s.At(side).endpoint.runs || RunOk(s', r, side)
    ensures SideOk(s', side)
  {
    hide WireOk;
    hide Unanswered;
    hide RunOk;
    hide Later;
    var half, half' := s.At(side), s'.At(side);
    forall i | 0 <= i < |half'.inbox| ensures WireOk(s', half'.inbox[i], side) {
      var w := half'.inbox[i];
      assert w in half'.inbox;
      if !WireOk(s', w, side) { WireStill(s, s', touched, w, side); }
    }
    forall i | 0 <= i < |half'.endpoint.outbox| ensures Unanswered(s', half'.endpoint.outbox[i], side) {
      var m := half'.endpoint.outbox[i];
      assert m in half'.endpoint.outbox;
      if !Unanswered(s', m, side) { MessageStill(s, s', touched, m, side); }
    }
    forall i | 0 <= i < |half'.held| ensures Unanswered(s', half'.held[i], side) {
      var m := half'.held[i];
      assert m in half'.held;
      if !Unanswered(s', m, side) { MessageStill(s, s', touched, m, side); }
    }
    forall i | 0 <= i < |half'.endpoint.runs| ensures RunOk(s', half'.endpoint.runs[i], side) {
      var r := half'.endpoint.runs[i];
      assert r in half'.endpoint.runs;
      if !RunOk(s', r, side) { RunStill(s, s', touched, r, side); }
    }
    forall id | id in half'.endpoint.pending ensures PendingOk(s', id, half'.endpoint.pending[id], side) {
      if !PendingOk(s', id, half'.endpoint.pending[id], side) {
        PendingStill(s, s', touched, id, half'.endpoint.pending[id], side);
      }
    }
  }

  lemma PendingStill(s: System, s': System, touched: Option<nat>, id: nat, deadline: int, side: Side)
    requires Later(s, s', touched) && PendingOk(s, id, deadline, side)
    ensures PendingOk(s', id, deadline, side)
  {
  }

  /** Nothing on this side names the request. */
  lemma NowhereOn(half: Half, id: nat)
    ensures WireCount(half.inbox, id) == 0 ==> forall w :: w in half.inbox ==> Names(w, id) == 0
    ensures MessageCount(half.endpoint.outbox, id) == 0 ==> forall m :: m in half.endpoint.outbox ==> m.id != Some(id)
    ensures MessageCount(half.held, id) == 0 ==> forall m :: m in half.held ==> m.id != Some(id)
  {
    forall i | 0 <= i < |half.inbox| && Names(half.inbox[i], id) == 1 ensures WireCount(half.inbox, id) >= 1 {
      WireCounted(half.inbox, i, id);
    }
    forall i | 0 <= i < |half.endpoint.outbox| && half.endpoint.outbox[i].id == Some(id)
      ensures MessageCount(half.endpoint.outbox, id) >= 1
    {
      MessageCounted(half.endpoint.outbox, i, id);
    }
    forall i | 0 <= i < |half.held| && half.held[i].id == Some(id) ensures MessageCount(half.held, id) >= 1 {
      MessageCounted(half.held, i, id);
    }
  }

  lemma CountsKept(s: System, step: Step)
    requires Inv(s) && Enabled(s, step)
    ensures var s' := Apply(s, step);
            (forall id: nat :: Callbacks(s', id) == if id in s'.issued then 1 else 0) &&
            (forall id: nat :: Handles(s', id) <= if id in s'.issued then 1 else 0) &&
            (forall id: nat :: id in s.issued ==> Handles(s', id) <= Handles(s, id))
  {
    hide Callbacks;
    hide Handles;
    hide SideOk;
    if step.Ask? {
      FreshIsFresh(s, step.id, step.from);
    }
    var s' := Apply(s, step);
    forall id: nat
      ensures Callbacks(s', id) == if id in s'.issued then 1 else 0
      ensures Handles(s', id) <= if id in s'.issued then 1 else 0
      ensures id in s.issued ==> Handles(s', id) <= Handles(s, id)
    {
      CountsStep(s, step, id);
    }
  }

  lemma FreshIsFresh(s: System, id: nat, side: Side)
    requires Inv(s) && id !in s.issued
    ensures id !in s.At(side).endpoint.pending
  {
  }

  lemma InvSide(s: System, side: Side)
    requires Inv(s)
    ensures SideOk(s, side)
  {
  }

  lemma Combine(s: System, step: Step, side: Side)
    requires Inv(s) && Enabled(s, step)
    requires Apply(s, step).answers.Keys <= Apply(s, step).issued.Keys
    requires SideOk(Apply(s, step), side) && SideOk(Apply(s, step), Other(side))
    ensures Inv(Apply(s, step))
  {
    CountsKept(s, step);
  }

  lemma AskKeeps(s: System, from: Side, id: nat, payload: Payload, timeout: nat)
    requires Inv(s) && s.At(from).open && id !in s.issued
    ensures Inv(Apply(s, Ask(from, id, payload, timeout)))
  {
    hide SideOk;
    hide RunOk;
    hide Handles;
    hide Callbacks;
    var step := Ask(from, id, payload, timeout);
    var s' := Apply(s, step);
    CountsKept(s, step);
    InvSide(s, from);
    InvSide(s, Other(from));
    assert WireOk(s', Request(Some(id), payload), Other(from));
    assert PendingOk(s', id, s.clock + timeout, from);
    SideFrame(s, s', from, None);
    SideFrame(s, s', Other(from), None);
    Combine(s, step, from);
  }

  lemma ReceiveKeeps(s: System, at: Side, failing: set<nat>)
    requires Inv(s) && s.At(at).open && s.At(at).inbox != []
    ensures Inv(Apply(s, Receive(at, failing)))
  {
    hide SideOk;
    hide RunOk;
    hide Callbacks;
    hide Handles;
    var step := Receive(at, failing);
    var s' := Apply(s, step);
    CountsKept(s, step);
    ReceivedSide(s, at, failing);
    InvSide(s, Other(at));
    SideFrame(s, s', Other(at), None);
    Combine(s, step, at);
  }

  lemma ReceivedSide(s: System, at: Side, failing: set<nat>)
    requires Inv(s) && s.At(at).open && s.At(at).inbox != []
    ensures SideOk(Apply(s, Receive(at, failing)), at)
  {
    hide RunOk;
    hide Callbacks;
    hide Handles;
    var step := Receive(at, failing);
    var s' := Apply(s, step);
    CountsKept(s, step);
    InvSide(s, at);
    var wire := s.At(at).inbox[0];
    assert WireOk(s, wire, at);
    if wire.Request? {
      assert Unanswered(s', Message(wire.request, wire.payload), at);
    } else if wire.id in s.At(at).endpoint.pending {
      LastHandleGone(s, step, wire.id);
    }
    hide SideOk;
    SideFrame(s, s', at, None);
  }

  lemma LastHandleGone(s: System, step: Step, id: nat)
    requires Inv(s) && Enabled(s, step) && step.Receive?
    requires s.At(step.at).inbox[0].Response? && s.At(step.at).inbox[0].id == id
    requires WireOk(s, s.At(step.at).inbox[0], step.at)
    ensures var s' := Apply(s, step);
            Handles(s', id) == 0 && RunOk(s', Run(id, Answered(s.At(step.at).inbox[0].answer), s.clock), step.at)
  {
    hide SideOk;
    hide Callbacks;
    hide Handles;
    CountsStep(s, step, id);
  }

  lemma ExpireKeeps(s: System, at: Side, id: nat)
    requires Inv(s) && s.At(at).open && Expired(s.At(at).endpoint, id, s.clock)
    ensures Inv(Apply(s, Expire(at, id)))
  {
    hide Callbacks;
    hide Handles;
    var step := Expire(at, id);
    var s' := Apply(s, step);
    CountsKept(s, step);
    InvSide(s, at);
    InvSide(s, Other(at));
    assert RunOk(s', Run(id, TimedOut, s.clock), at);
    SideFrame(s, s', at, None);
    SideFrame(s, s', Other(at), None);
    Combine(s, step, at);
  }

  lemma RespondLater(s: System, from: Side, i: nat, answer: Answer)
    requires Inv(s) && i < |s.At(from).held| && s.At(from).held[i].id.Some?
    requires s.At(Other(from)).open
    ensures var s', id := Apply(s, Respond(from, i, answer)), s.At(from).held[i].id.value;
            Later(s, s', Some(id)) && WireOk(s', Response(id, answer), Other(from)) && s'.answers.Keys <= s'.issued.Keys
  {
    hide Callbacks;
    hide Handles;
    hide RunOk;
    InvSide(s, from);
    CountsKept(s, Respond(from, i, answer));
    OnlyHeldHere(s, from, i);
    assert Unanswered(s, s.At(from).held[i], from);
  }

  lemma RespondKeeps(s: System, from: Side, i: nat, answer: Answer)
    requires Inv(s) && i < |s.At(from).held| && s.At(from).held[i].id.Some?
    requires s.At(Other(from)).open
    ensures Inv(Apply(s, Respond(from, i, answer)))
  {
    hide Inv;
    hide Later;
    hide SideOk;
    hide WireOk;
    hide Unanswered;
    hide RunOk;
    hide PendingOk;
    var step := Respond(from, i, answer);
    var s' := Apply(s, step);
    var id := s.At(from).held[i].id.value;
    RespondLater(s, from, i, answer);
    OnlyHeldHere(s, from, i);
    InvSide(s, from);
    InvSide(s, Other(from));
    SideFrame(s, s', from, Some(id));
    SideFrame(s, s', Other(from), Some(id));
    Combine(s, step, from);
  }

  lemma DrainKeeps(s: System, at: Side)
    requires Inv(s) && s.At(at).open
    ensures Inv(Apply(s, Drain(at)))
  {
    hide RunOk;
    hide Handles;
    hide Callbacks;
    var step := Drain(at);
    var s' := Apply(s, step);
    CountsKept(s, step);
    InvSide(s, at);
    InvSide(s, Other(at));
    forall m | m in s.At(at).endpoint.outbox ensures Unanswered(s', m, at) {
      var i :| 0 <= i < |s.At(at).endpoint.outbox| && s.At(at).endpoint.outbox[i] == m;
      assert Unanswered(s, m, at);
    }
    SideFrame(s, s', at, None);
    SideFrame(s, s', Other(at), None);
    Combine(s, step, at);
  }

  /** The handle being answered is the only one on its request. */
  lemma OnlyHeldHere(s: System, from: Side, i: nat)
    requires Inv(s) && i < |s.At(from).held| && s.At(from).held[i].id.Some?
    ensures var id := s.At(from).held[i].id.value;
            Handles(s, id) >= 1 &&
            (forall side, w :: w in s.At(side).inbox ==> Names(w, id) == 0) &&
            (forall side, m :: m in s.At(side).endpoint.outbox ==> m.id != Some(id)) &&
            (forall m :: m in s.At(Other(from)).held ==> m.id != Some(id)) &&
            (forall m :: m in Released(s.At(from), i).held ==> m.id != Some(id))
  {
    hide SideOk;
    var id := s.At(from).held[i].id.value;
    MessageCounted(s.At(from).held, i, id);
    ReleasedCounts(s.At(from), i, id);
    NowhereOn(Released(s.At(from), i), id);
    NowhereOn(s.At(Other(from)), id);
  }

  ghost predicate Plain(s: System, step: Step) {
    step.Publish? || step.Drop? || step.Close? || step.Tick? ||
    (step.Respond? && step.index < |s.At(step.from).held| &&
     (s.At(step.from).held[step.index].id.None? || !s.At(Other(step.from)).open))
  }

  lemma PlainLater(s: System, step: Step)
    requires Inv(s) && Enabled(s, step) && Plain(s, step)
    ensures Later(s, Apply(s, step), None)
    ensures Apply(s, step).answers == s.answers && Apply(s, step).issued == s.issued
  {
    hide SideOk;
    hide Handles;
    hide Callbacks;
    CountsKept(s, step);
  }

  /** At most an event is added to a side, and its endpoint is left alone. */
  lemma PlainMoves(s: System, step: Step, side: Side)
    requires Enabled(s, step) && Plain(s, step)
    ensures var half, half' := s.At(side), Apply(s, step).At(side);
            half'.endpoint == half.endpoint && (forall m :: m in half'.held ==> m in half.held) &&
            (forall w :: w in half'.inbox ==> w in half.inbox || (w.Request? && w.request.None?))
  {
  }

  lemma PlainSide(s: System, step: Step, side: Side)
    requires Inv(s) && Enabled(s, step) && Plain(s, step)
    ensures SideOk(Apply(s, step), side)
  {
    hide Inv;
    hide Later;
    hide SideOk;
    hide RunOk;
    hide PendingOk;
    hide Apply;
    PlainLater(s, step);
    PlainMoves(s, step, side);
    InvSide(s, side);
    SideFrame(s, Apply(s, step), side, None);
  }

  lemma PlainKeeps(s: System, step: Step)
    requires Inv(s) && Enabled(s, step) && Plain(s, step)
    ensures Inv(Apply(s, step))
  {
    hide Later;
    hide SideOk;
    hide Handles;
    hide Callbacks;
    hide Apply;
    PlainLater(s, step);
    PlainSide(s, step, Parent);
    PlainSide(s, step, Child);
    Combine(s, step, Parent);
  }

  lemma StepKeeps(s: System, step: Step)
    requires Inv(s) && Enabled(s, step)
    ensures Inv(Apply(s, step))
  {
    hide Inv;
    hide Apply;
    match step
    case Ask(from, id, payload, timeout) => AskKeeps(s, from, id, payload, timeout);
    case Receive(at, failing) => ReceiveKeeps(s, at, failing);
    case Expire(at, id) => ExpireKeeps(s, at, id);
    case Respond(from, i, answer) =>
      if s.At(from).held[i].id.Some? && s.At(Other(from)).open {
        RespondKeeps(s, from, i, answer);
      } else {
        PlainKeeps(s, step);
      }
    case Drain(at) => DrainKeeps(s, at);
    case _ => PlainKeeps(s, step);
  }

  // ----- Whole runs -----

  lemma {:induction false} RunKeeps(s: System, steps: seq<Step>)
    requires Inv(s) && ValidRun(s, steps)
    ensures Inv(RunSteps(s, steps))
    decreases |steps|
  {
    if steps != [] {
      hide Inv;
      hide Apply;
      StepKeeps(s, steps[0]);
      RunKeeps(Apply(s, steps[0]), steps[1..]);
    }
  }

  lemma NewIsFine()
    ensures Inv(NEW_SYSTEM)
  {
  }

  lemma OnlyIssuerRuns(s: System, side: Side, id: nat)
    requires Inv(s) && RunCount(s.At(side).endpoint.runs, id) >= 1
    ensures IssuedBy(s, id, side)
  {
    InvSide(s, side);
    var i := RunFound(s.At(side).endpoint.runs, id);
    assert RunOk(s, s.At(side).endpoint.runs[i], side);
  }

  /** What is known of the callback of request `id`. */
  ghost predicate Correlated(s: System, id: nat)
    requires id in s.issued
  {
    var mine, other := s.At(s.issued[id].side).endpoint, s.At(Other(s.issued[id].side)).endpoint;
    id !in other.pending && RunCount(other.runs, id) == 0 && CallbacksOf(mine, id) == 1 &&
    (forall i :: 0 <= i < |mine.runs| && mine.runs[i].id == id && mine.runs[i].outcome.Answered? ==>
      id in s.answers && s.answers[id] == mine.runs[i].outcome.answer)
  }

  lemma InvCorrelates(s: System, id: nat)
    requires Inv(s) && id in s.issued
    ensures Correlated(s, id)
  {
    var side := s.issued[id].side;
    InvSide(s, side);
    InvSide(s, Other(side));
    if RunCount(s.At(Other(side)).endpoint.runs, id) >= 1 {
      OnlyIssuerRuns(s, Other(side), id);
    }
    assert forall i :: 0 <= i < |s.At(side).endpoint.runs| ==> RunOk(s, s.At(side).endpoint.runs[i], side);
  }

  /** Correlation: over every interleaving a request has at most one callback run, an unresolved
      request waits in exactly one tracker, its issuer's, and a response reaches the callback with
      exactly the answer that was given for that very request. */
  lemma Correlation(steps: seq<Step>, id: nat)
    requires ValidRun(NEW_SYSTEM, steps) && id in RunSteps(NEW_SYSTEM, steps).issued
    ensures Correlated(RunSteps(NEW_SYSTEM, steps), id)
  {
    hide Inv;
    hide Correlated;
    NewIsFine();
    RunKeeps(NEW_SYSTEM, steps);
    InvCorrelates(RunSteps(NEW_SYSTEM, steps), id);
  }

  /** A timeout is never delivered before its deadline. */
  lemma NoEarlyTimeout(steps: seq<Step>, side: Side, i: nat)
    requires ValidRun(NEW_SYSTEM, steps) && i < |RunSteps(NEW_SYSTEM, steps).At(side).endpoint.runs|
    requires RunSteps(NEW_SYSTEM, steps).At(side).endpoint.runs[i].outcome.TimedOut?
    ensures var s := RunSteps(NEW_SYSTEM, steps);
            var run := s.At(side).endpoint.runs[i];
            run.id in s.issued && run.at > s.issued[run.id].deadline
  {
    NewIsFine();
    RunKeeps(NEW_SYSTEM, steps);
    InvSide(RunSteps(NEW_SYSTEM, steps), side);
    assert RunOk(RunSteps(NEW_SYSTEM, steps), RunSteps(NEW_SYSTEM, steps).At(side).endpoint.runs[i], side);
  }

  /** The next response is refused with RequestIdNotFound exactly when its request has timed out. */
  lemma UnknownIdMeansTimedOut(steps: seq<Step>, at: Side)
    requires ValidRun(NEW_SYSTEM, steps)
    requires RunSteps(NEW_SYSTEM, steps).At(at).inbox != [] && RunSteps(NEW_SYSTEM, steps).At(at).inbox[0].Response?
    ensures var half := RunSteps(NEW_SYSTEM, steps).At(at);
            half.inbox[0].id !in half.endpoint.pending <==>
              exists i :: 0 <= i < |half.endpoint.runs| && half.endpoint.runs[i].id == half.inbox[0].id &&
                          half.endpoint.runs[i].outcome.TimedOut?
  {
    NewIsFine();
    RunKeeps(NEW_SYSTEM, steps);
    UnknownIdHelper(RunSteps(NEW_SYSTEM, steps), at);
  }

  lemma UnknownIdHelper(s: System, at: Side)
    requires Inv(s) && s.At(at).inbox != [] && s.At(at).inbox[0].Response?
    ensures var half := s.At(at);
            half.inbox[0].id !in half.endpoint.pending <==>
              exists i :: 0 <= i < |half.endpoint.runs| && half.endpoint.runs[i].id == half.inbox[0].id &&
                          half.endpoint.runs[i].outcome.TimedOut?
  {
    var half, id := s.At(at), s.At(at).inbox[0].id;
    var e, other := half.endpoint, s.At(Other(at)).endpoint;
    InvSide(s, at);
    InvSide(s, Other(at));
    assert WireOk(s, half.inbox[0], at);
    WireCounted(half.inbox, 0, id);
    assert Callbacks(s, id) == 1;
    if RunCount(other.runs, id) >= 1 {
      OnlyIssuerRuns(s, Other(at), id);
    }
    if id !in e.pending {
      var i := RunFound(e.runs, id);
      assert RunOk(s, e.runs[i], at);
    } else {
      forall i | 0 <= i < |e.runs| ensures e.runs[i].id != id {
        RunCounted(e.runs, i);
      }
    }
  }

  // ----- Requests that could not be sent -----

  /** The request was made, and nothing that could answer it exists. */
  ghost predicate Unsent(s: System, id: nat) {
    id in s.issued && id !in s.answers && Handles(s, id) == 0
  }

  lemma UnsentStep(s: System, step: Step, id: nat)
    requires Inv(s) && Enabled(s, step) && Unsent(s, id)
    ensures Unsent(Apply(s, step), id)
  {
    hide SideOk;
    hide Callbacks;
    CountsKept(s, step);
    if step.Respond? && s.At(step.from).held[step.index].id == Some(id) {
      MessageCounted(s.At(step.from).held, step.index, id);
    }
  }

  /** A request made when the other endpoint is gone is not sent, but its callback is bookmarked: in
      every continuation it waits in its tracker or hears a timeout, and never an answer. */
  lemma UnsentOnlyTimesOut(before: seq<Step>, from: Side, id: nat, payload: Payload, timeout: nat, after: seq<Step>)
    requires ValidRun(NEW_SYSTEM, before) && !RunSteps(NEW_SYSTEM, before).At(Other(from)).open
    requires Enabled(RunSteps(NEW_SYSTEM, before), Ask(from, id, payload, timeout))
    requires ValidRun(Apply(RunSteps(NEW_SYSTEM, before), Ask(from, id, payload, timeout)), after)
    ensures var s := RunSteps(Apply(RunSteps(NEW_SYSTEM, before), Ask(from, id, payload, timeout)), after);
            s.At(Other(from)).inbox == RunSteps(NEW_SYSTEM, before).At(Other(from)).inbox &&
            CallbacksAt(s.At(from), id) == 1 &&
            forall i :: 0 <= i < |s.At(from).endpoint.runs| && s.At(from).endpoint.runs[i].id == id ==>
              s.At(from).endpoint.runs[i].outcome.TimedOut?
  {
    hide Apply;
    hide Inv;
    var s, step := RunSteps(NEW_SYSTEM, before), Ask(from, id, payload, timeout);
    NewIsFine();
    RunKeeps(NEW_SYSTEM, before);
    AskedUnsent(s, from, id, payload, timeout);
    StepKeeps(s, step);
    UnsentRun(Apply(s, step), from, id, after);
  }

  lemma AskedUnsent(s: System, from: Side, id: nat, payload: Payload, timeout: nat)
    requires Inv(s) && Enabled(s, Ask(from, id, payload, timeout)) && !s.At(Other(from)).open
    ensures var s' := Apply(s, Ask(from, id, payload, timeout));
            Unsent(s', id) && IssuedBy(s', id, from) && !s'.At(Other(from)).open &&
            s'.At(Other(from)).inbox == s.At(Other(from)).inbox
  {
    hide SideOk;
    hide Callbacks;
    FreshIsFresh(s, id, from);
    CountsStep(s, Ask(from, id, payload, timeout), id);
  }

  lemma {:induction false} UnsentRun(s: System, from: Side, id: nat, steps: seq<Step>)
    requires Inv(s) && ValidRun(s, steps) && Unsent(s, id) && IssuedBy(s, id, from) && !s.At(Other(from)).open
    ensures var s' := RunSteps(s, steps);
            s'.At(Other(from)).inbox == s.At(Other(from)).inbox && CallbacksAt(s'.At(from), id) == 1 &&
            forall i :: 0 <= i < |s'.At(from).endpoint.runs| && s'.At(from).endpoint.runs[i].id == id ==>
              s'.At(from).endpoint.runs[i].outcome.TimedOut?
    decreases |steps|
  {
    hide CallbacksAt;
    if steps == [] {
      UnsentNow(s, from, id);
    } else {
      hide Inv;
      hide Unsent;
      StepKeeps(s, steps[0]);
      UnsentStep(s, steps[0], id);
      StaysClosed(s, steps[0], from, id);
      hide Apply;
      UnsentRun(Apply(s, steps[0]), from, id, steps[1..]);
    }
  }

  lemma StaysClosed(s: System, step: Step, from: Side, id: nat)
    requires Enabled(s, step) && IssuedBy(s, id, from) && !s.At(Other(from)).open
    ensures var s' := Apply(s, step);
            IssuedBy(s', id, from) && !s'.At(Other(from)).open && s'.At(Other(from)).inbox == s.At(Other(from)).inbox
  {
  }

  lemma UnsentNow(s: System, from: Side, id: nat)
    requires Inv(s) && Unsent(s, id) && IssuedBy(s, id, from)
    ensures CallbacksAt(s.At(from), id) == 1
    ensures forall i :: 0 <= i < |s.At(from).endpoint.runs| && s.At(from).endpoint.runs[i].id == id ==>
              s.At(from).endpoint.runs[i].outcome.TimedOut?
  {
    InvSide(s, from);
    InvSide(s, Other(from));
    if RunCount(s.At(Other(from)).endpoint.runs, id) >= 1 {
      OnlyIssuerRuns(s, Other(from), id);
    }
    forall i | 0 <= i < |s.At(from).endpoint.runs| && s.At(from).endpoint.runs[i].id == id
      ensures s.At(from).endpoint.runs[i].outcome.TimedOut?
    {
      assert RunOk(s, s.At(from).endpoint.runs[i], from);
    }
  }

  // ----- FIFO conservation -----

  ghost predicate Fifo(half: Half) {
    half.drained + half.endpoint.outbox + Requests(half.inbox) == half.sent
  }

  lemma {:induction false} RequestsAppend(wires: seq<Wire>, wire: Wire)
    ensures Requests(wires + [wire]) ==
            Requests(wires) + (if wire.Request? then [Message(wire.request, wire.payload)] else [])
  {
    if wires == [] {
      assert [wire][1..] == [];
    } else {
      assert (wires + [wire])[1..] == wires[1..] + [wire];
      RequestsAppend(wires[1..], wire);
      var first := if wires[0].Request? then [Message(wires[0].request, wires[0].payload)] else [];
      assert Requests(wires + [wire]) == first + Requests(wires[1..] + [wire]);
    }
  }

  lemma SentFifo(half: Half, wire: Wire)
    requires Fifo(half)
    ensures Fifo(Sent(half, wire))
  {
    RequestsAppend(half.inbox, wire);
    var front := half.drained + half.endpoint.outbox;
    if wire.Request? {
      assert front + (Requests(half.inbox) + [Message(wire.request, wire.payload)]) ==
             (front + Requests(half.inbox)) + [Message(wire.request, wire.payload)];
    }
  }

  lemma ReceivedFifo(half: Half, now: int, failing: set<nat>)
    requires Fifo(half) && half.inbox != []
    ensures Fifo(ReceivedAt(half, now, failing))
  {
    var wire, rest := half.inbox[0], Requests(half.inbox[1..]);
    if wire.Request? {
      var m := Message(wire.request, wire.payload);
      assert half.drained + (half.endpoint.outbox + [m]) + rest == half.drained + half.endpoint.outbox + ([m] + rest);
    }
  }

  lemma DrainedFifo(half: Half)
    requires Fifo(half)
    ensures Fifo(DrainedAt(half))
  {
    assert half.drained + half.endpoint.outbox + [] == half.drained + half.endpoint.outbox;
  }

  lemma FifoStep(s: System, step: Step)
    requires Enabled(s, step) && Fifo(s.parent) && Fifo(s.child)
    ensures Fifo(Apply(s, step).parent) && Fifo(Apply(s, step).child)
  {
    hide Sent;
    hide ReceivedAt;
    hide DrainedAt;
    match step
    case Ask(from, id, payload, timeout) => SentFifo(s.At(Other(from)), Request(Some(id), payload));
    case Publish(from, payload) => SentFifo(s.At(Other(from)), Request(None, payload));
    case Receive(at, failing) => ReceivedFifo(s.At(at), s.clock, failing);
    case Drain(at) => DrainedFifo(s.At(at));
    case Respond(from, i, answer) =>
      if s.At(from).held[i].id.Some? && s.At(Other(from)).open {
        SentFifo(s.At(Other(from)), Response(s.At(from).held[i].id.value, answer));
      }
    case _ =>
  }

  /** FIFO conservation: at every point what was drained, what waits in the outbox and what still
      travels is, in this order, exactly what was sent. */
  lemma {:induction false} FifoConservation(s: System, steps: seq<Step>)
    requires Fifo(s.parent) && Fifo(s.child) && ValidRun(s, steps)
    ensures Fifo(RunSteps(s, steps).parent) && Fifo(RunSteps(s, steps).child)
    decreases |steps|
  {
    if steps != [] {
      hide Fifo;
      hide Apply;
      FifoStep(s, steps[0]);
      FifoConservation(Apply(s, steps[0]), steps[1..]);
    }
  }

  // ----- A process call is a run, and what it consumes -----

  lemma {:induction false} PrefixToOutbox(e: Endpoint, wires: seq<Wire>, now: int, failing: set<nat>)
    ensures var r := ReceiveAll(e, wires, now, failing);
            r.endpoint.outbox == e.outbox + Requests(wires[..r.consumed])
    decreases |wires|
  {
    hide HandleResponse;
    if wires != [] {
      var h := ReceiveOne(e, wires[0], now, failing);
      ResponseKeepsOutbox(e, wires[0], now, failing);
      var n := if h.ok then ReceiveAll(h.endpoint, wires[1..], now, failing).consumed else 0;
      assert wires[..1 + n][1..] == wires[1..][..n];
      if h.ok {
        PrefixToOutbox(h.endpoint, wires[1..], now, failing);
      }
    }
  }

  lemma ResponseKeepsOutbox(e: Endpoint, wire: Wire, now: int, failing: set<nat>)
    ensures ReceiveOne(e, wire, now, failing).endpoint.outbox == e.outbox + Requests([wire])
    ensures wire.Request? ==> ReceiveOne(e, wire, now, failing).ok
  {
    assert [wire][1..] == [];
  }

  lemma {:induction false} StopsAtFailure(e: Endpoint, wires: seq<Wire>, now: int, failing: set<nat>)
    ensures var r := ReceiveAll(e, wires, now, failing);
            !r.ok ==> r.consumed > 0 && wires[r.consumed - 1].Response? &&
                      ReceiveAll(e, wires[..r.consumed - 1], now, failing).ok
    decreases |wires|
  {
    hide HandleResponse;
    if wires != [] {
      var h := ReceiveOne(e, wires[0], now, failing);
      if h.ok {
        var n := ReceiveAll(h.endpoint, wires[1..], now, failing).consumed;
        StopsAtFailure(h.endpoint, wires[1..], now, failing);
        if n > 0 {
          assert wires[..n][0] == wires[0] && wires[..n][1..] == wires[1..][..n - 1];
        }
      }
    }
  }

  /** What a process call takes from the channel: every request in the consumed prefix lands in the
      outbox in order, and it stops early only right after a response that fails. */
  lemma ConsumedPrefix(e: Endpoint, wires: seq<Wire>, now: int, failing: set<nat>)
    ensures var r := ReceiveAll(e, wires, now, failing);
            r.endpoint.outbox == e.outbox + Requests(wires[..r.consumed]) &&
            (r.ok ==> r.consumed == |wires|) &&
            (!r.ok ==> r.consumed > 0 && wires[r.consumed - 1].Response? &&
                       ReceiveAll(e, wires[..r.consumed - 1], now, failing).ok)
  {
    PrefixToOutbox(e, wires, now, failing);
    StopsAtFailure(e, wires, now, failing);
  }

  lemma ReceiveKeepsCallbacks(e: Endpoint, wire: Wire, now: int, failing: set<nat>, id: nat)
    ensures CallbacksOf(ReceiveOne(e, wire, now, failing).endpoint, id) == CallbacksOf(e, id)
  {
    if wire.Response? {
      RunCountAppend(e.runs, Run(wire.id, Answered(wire.answer), now), id);
    }
  }

  lemma ExpireKeepsCallbacks(e: Endpoint, expired: nat, now: int, id: nat)
    ensures CallbacksOf(ExpireOne(e, expired, now), id) == CallbacksOf(e, id)
  {
    RunCountAppend(e.runs, Run(expired, TimedOut, now), id);
  }

  lemma {:induction false} ExpiringConserves(e: Endpoint, ids: seq<nat>, now: int, failing: set<nat>, id: nat)
    ensures var r := ExpireAll(e, ids, now, failing).endpoint;
            CallbacksOf(r, id) == CallbacksOf(e, id) && r.outbox == e.outbox
    decreases |ids|
  {
    hide CallbacksOf;
    if ids != [] {
      ExpireKeepsCallbacks(e, ids[0], now, id);
      ExpiringConserves(ExpireOne(e, ids[0], now), ids[1..], now, failing, id);
    }
  }

  lemma {:induction false} ReceivingConserves(e: Endpoint, wires: seq<Wire>, now: int, failing: set<nat>, id: nat)
    ensures CallbacksOf(ReceiveAll(e, wires, now, failing).endpoint, id) == CallbacksOf(e, id)
    decreases |wires|
  {
    hide CallbacksOf;
    if wires != [] {
      ReceiveKeepsCallbacks(e, wires[0], now, failing, id);
      ReceivingConserves(ReceiveOne(e, wires[0], now, failing).endpoint, wires[1..], now, failing, id);
    }
  }

  /** A process call loses and doubles no callback, and what it takes from the channel it keeps. */
  lemma ProcessConserves(e: Endpoint, ids: seq<nat>, wires: seq<Wire>, now: int, failing: set<nat>)
    ensures var r := ProcessEndpoint(e, ids, wires, now, failing);
            r.endpoint.outbox == e.outbox + Requests(wires[..r.consumed]) &&
            forall id: nat :: CallbacksOf(r.endpoint, id) == CallbacksOf(e, id)
  {
    hide CallbacksOf;
    var expired := ExpireAll(e, ids, now, failing).endpoint;
    ExpiringConserves(e, ids, now, failing, 0);
    ConsumedPrefix(expired, wires, now, failing);
    var r := ProcessEndpoint(e, ids, wires, now, failing);
    forall id: nat ensures CallbacksOf(r.endpoint, id) == CallbacksOf(e, id) {
      ExpiringConserves(e, ids, now, failing, id);
      ReceivingConserves(expired, wires, now, failing, id);
    }
  }

  // ----- Nothing overdue is left waiting -----

  lemma {:induction false} ExpiringRunsAll(e: Endpoint, ids: seq<nat>, now: int, failing: set<nat>)
    requires ExpireAll(e, ids, now, failing).ok
    ensures var r := ExpireAll(e, ids, now, failing).endpoint;
            (forall id :: id in r.pending <==> id in e.pending && id !in ids) &&
            (forall id :: id in r.pending ==> r.pending[id] == e.pending[id]) &&
            (forall run :: run in e.runs ==> run in r.runs) &&
            (forall id :: id in ids && id in e.pending ==> Run(id, TimedOut, now) in r.runs)
    decreases |ids|
  {
    if ids != [] {
      var next := ExpireOne(e, ids[0], now);
      ExpiringRunsAll(next, ids[1..], now, failing);
      assert forall id :: id in ids <==> id == ids[0] || id in ids[1..];
      if ids[0] in e.pending {
        assert next.runs[|e.runs|] == Run(ids[0], TimedOut, now);
        assert forall run :: run in e.runs ==> run in next.runs;
      }
    }
  }

  lemma {:induction false} ReceivingOnlyResolves(e: Endpoint, wires: seq<Wire>, now: int, failing: set<nat>)
    ensures var r := ReceiveAll(e, wires, now, failing).endpoint;
            (forall id :: id in r.pending ==> id in e.pending && r.pending[id] == e.pending[id]) &&
            (forall run :: run in e.runs ==> run in r.runs)
    decreases |wires|
  {
    if wires != [] {
      ReceivingOnlyResolves(ReceiveOne(e, wires[0], now, failing).endpoint, wires[1..], now, failing);
    }
  }

  /** A process call whose timeout callbacks succeed runs every overdue callback with a timeout, and
      leaves nothing overdue waiting, whatever becomes of the messages it then receives. */
  lemma OverdueTimesOut(e: Endpoint, ids: seq<nat>, wires: seq<Wire>, now: int, failing: set<nat>)
    requires ListsExpired(ids, e, now) && ExpireAll(e, ids, now, failing).ok
    ensures var r := ProcessEndpoint(e, ids, wires, now, failing).endpoint;
            (forall id :: id in r.pending ==> now <= r.pending[id]) &&
            (forall id :: Expired(e, id, now) ==> Run(id, TimedOut, now) in r.runs)
  {
    hide ExpireAll;
    hide ReceiveAll;
    ExpiringRunsAll(e, ids, now, failing);
    ReceivingOnlyResolves(ExpireAll(e, ids, now, failing).endpoint, wires, now, failing);
    var r := ProcessEndpoint(e, ids, wires, now, failing).endpoint;
    forall id | id in r.pending ensures now <= r.pending[id] {
      assert id in ExpireAll(e, ids, now, failing).endpoint.pending;
      assert !Expired(e, id, now);
    }
  }

  lemma {:induction false} RunConcat(s: System, a: seq<Step>, b: seq<Step>)
    requires ValidRun(s, a) && ValidRun(RunSteps(s, a), b)
    ensures ValidRun(s, a + b) && RunSteps(s, a + b) == RunSteps(RunSteps(s, a), b)
    decreases |a|
  {
    hide Apply;
    if a == [] {
      assert a + b == b;
    } else {
      assert (a + b)[1..] == a[1..] + b;
      RunConcat(Apply(s, a[0]), a[1..], b);
    }
  }

  lemma {:induction false} ExpiringIsARun(s: System, at: Side, ids: seq<nat>, failing: set<nat>)
    returns (steps: seq<Step>)
    requires forall i, j :: 0 <= i < j < |ids| ==> ids[i] != ids[j]
    requires forall i :: 0 <= i < |ids| ==> Expired(s.At(at).endpoint, ids[i], s.clock)
    requires s.At(at).open
    ensures ValidRun(s, steps)
    ensures RunSteps(s, steps) ==
              s.With(at, s.At(at).(endpoint := ExpireAll(s.At(at).endpoint, ids, s.clock, failing).endpoint))
    decreases |ids|
  {
    if ids == [] {
      steps := [];
    } else {
      var first := Expire(at, ids[0]);
      var s1 := Apply(s, first);
      if ids[0] in failing {
        steps := [first];
        assert steps[1..] == [] && ValidRun(s1, []);
      } else {
        forall i | 0 <= i < |ids[1..]| ensures Expired(s1.At(at).endpoint, ids[1..][i], s1.clock) {
          assert ids[1..][i] == ids[i + 1];
        }
        var rest := ExpiringIsARun(s1, at, ids[1..], failing);
        steps := [first] + rest;
        assert steps[1..] == rest;
      }
    }
  }

  lemma {:induction false} ReceivingIsARun(s: System, at: Side, failing: set<nat>) returns (steps: seq<Step>)
    requires s.At(at).open
    ensures ValidRun(s, steps)
    ensures var r := ReceiveAll(s.At(at).endpoint, s.At(at).inbox, s.clock, failing);
            RunSteps(s, steps) == s.With(at, s.At(at).(endpoint := r.endpoint, inbox := s.At(at).inbox[r.consumed..]))
    decreases |s.At(at).inbox|
  {
    var inbox := s.At(at).inbox;
    if inbox == [] {
      steps := [];
      assert inbox[0..] == inbox;
    } else {
      var first := Receive(at, failing);
      var s1 := Apply(s, first);
      if !ReceiveOne(s.At(at).endpoint, inbox[0], s.clock, failing).ok {
        steps := [first];
        assert steps[1..] == [] && ValidRun(s1, []);
      } else {
        var rest := ReceivingIsARun(s1, at, failing);
        steps := [first] + rest;
        assert steps[1..] == rest;
        var r := ReceiveAll(s1.At(at).endpoint, inbox[1..], s.clock, failing);
        assert inbox[1..][r.consumed..] == inbox[1 + r.consumed..];
      }
    }
  }

  /** A process call, whatever callbacks fail and whatever ids it finds expired, is one of the runs
      the results above are about. */
  lemma ProcessIsARun(s: System, at: Side, ids: seq<nat>, failing: set<nat>) returns (steps: seq<Step>)
    requires s.At(at).open && ListsExpired(ids, s.At(at).endpoint, s.clock)
    ensures ValidRun(s, steps)
    ensures var r := ProcessEndpoint(s.At(at).endpoint, ids, s.At(at).inbox, s.clock, failing);
            RunSteps(s, steps) == s.With(at, s.At(at).(endpoint := r.endpoint, inbox := s.At(at).inbox[r.consumed..]))
  {
    var first := ExpiringIsARun(s, at, ids, failing);
    var s1 := RunSteps(s, first);
    assert s.At(at).inbox[0..] == s.At(at).inbox;
    if ExpireAll(s.At(at).endpoint, ids, s.clock, failing).ok {
      var rest := ReceivingIsARun(s1, at, failing);
      RunConcat(s, first, rest);
      steps := first + rest;
    } else {
      steps := first;
    }
  }
}
