/** Answers are heard: what becomes of a response, in one process call and over every interleaving. */
module GhostAnswers {
  import opened GhostChannel
  import opened GhostChannelProofs
  import opened Wrappers

  // ----- One process call, by the wire messages alone -----

  /** One of the first `n` wire messages is a response on `id`. */
  ghost predicate Responded(wires: seq<Wire>, n: nat, id: nat) {
    exists j :: 0 <= j < n && j < |wires| && wires[j].Response? && wires[j].id == id
  }

  /** Wire message `k` is the first response on a request that is waiting and not overdue. */
  ghost predicate Awaited(e: Endpoint, wires: seq<Wire>, k: nat, now: int) {
    k < |wires| && wires[k].Response? && wires[k].id in e.pending && now <= e.pending[wires[k].id] &&
    !Responded(wires, k, wires[k].id)
  }

  /** Wire message `k` must end the call: a response nobody waits for, or one whose callback fails. */
  ghost predicate Refused(e: Endpoint, wires: seq<Wire>, k: nat, now: int, failing: set<nat>) {
    k < |wires| && wires[k].Response? && (!Awaited(e, wires, k, now) || wires[k].id in failing)
  }

  /** The same for an endpoint without overdue requests. */
  ghost predicate First(e: Endpoint, wires: seq<Wire>, k: nat) {
    k < |wires| && wires[k].Response? && wires[k].id in e.pending && !Responded(wires, k, wires[k].id)
  }

  ghost predicate Ends(e: Endpoint, wires: seq<Wire>, k: nat, failing: set<nat>) {
    k < |wires| && wires[k].Response? && (!First(e, wires, k) || wires[k].id in failing)
  }

  ghost predicate Heard(e: Endpoint, wires: seq<Wire>, n: nat, now: int, run: Run) {
    exists k :: 0 <= k < n && First(e, wires, k) && run == Run(wires[k].id, Answered(wires[k].answer), now)
  }

  lemma RespondedCons(wires: seq<Wire>, n: nat, id: nat)
    requires wires != []
    ensures Responded(wires, n + 1, id) <==> (wires[0].Response? && wires[0].id == id) || Responded(wires[1..], n, id)
  {
    if Responded(wires[1..], n, id) {
      var j :| 0 <= j < n && j < |wires[1..]| && wires[1..][j].Response? && wires[1..][j].id == id;
      assert wires[j + 1].id == id;
    }
    if Responded(wires, n + 1, id) && !(wires[0].Response? && wires[0].id == id) {
      var j :| 0 <= j < n + 1 && j < |wires| && wires[j].Response? && wires[j].id == id;
      assert wires[1..][j - 1].id == id;
    }
  }

  /** Once the first message is handled well, the others are what they were. */
  lemma OthersStay(e: Endpoint, wires: seq<Wire>, k: nat, now: int, failing: set<nat>)
    requires wires != [] && ReceiveOne(e, wires[0], now, failing).ok
    ensures var e1 := ReceiveOne(e, wires[0], now, failing).endpoint;
            (First(e, wires, k + 1) <==> First(e1, wires[1..], k)) &&
            (Ends(e, wires, k + 1, failing) <==> Ends(e1, wires[1..], k, failing))
  {
    if k + 1 < |wires| && wires[k + 1].Response? {
      RespondedCons(wires, k, wires[k + 1].id);
    }
  }

  lemma FirstHandled(e: Endpoint, wires: seq<Wire>, now: int, failing: set<nat>)
    requires wires != []
    ensures var h := ReceiveOne(e, wires[0], now, failing);
            (h.ok <==> !Ends(e, wires, 0, failing)) &&
            (forall id :: id in h.endpoint.pending <==>
              id in e.pending && !(wires[0].Response? && wires[0].id == id)) &&
            (forall id :: id in h.endpoint.pending ==> h.endpoint.pending[id] == e.pending[id]) &&
            (forall run :: run in h.endpoint.runs <==>
              run in e.runs || (First(e, wires, 0) && run == Run(wires[0].id, Answered(wires[0].answer), now)))
  {
    assert wires[0].Response? ==> !Responded(wires, 0, wires[0].id);
  }

  lemma HeardCons(e: Endpoint, wires: seq<Wire>, n: nat, now: int, failing: set<nat>, run: Run)
    requires wires != [] && ReceiveOne(e, wires[0], now, failing).ok
    ensures Heard(e, wires, n + 1, now, run) <==>
              (First(e, wires, 0) && run == Run(wires[0].id, Answered(wires[0].answer), now)) ||
              Heard(ReceiveOne(e, wires[0], now, failing).endpoint, wires[1..], n, now, run)
  {
    var e1 := ReceiveOne(e, wires[0], now, failing).endpoint;
    if Heard(e, wires, n + 1, now, run) {
      var k :| 0 <= k < n + 1 && First(e, wires, k) && run == Run(wires[k].id, Answered(wires[k].answer), now);
      if k > 0 {
        OthersStay(e, wires, k - 1, now, failing);
        assert First(e1, wires[1..], k - 1);
      }
    }
    if Heard(e1, wires[1..], n, now, run) {
      var k :| 0 <= k < n && First(e1, wires[1..], k) &&
               run == Run(wires[1..][k].id, Answered(wires[1..][k].answer), now);
      OthersStay(e, wires, k, now, failing);
      assert First(e, wires, k + 1);
    }
  }

  /** What is left waiting and what has run after receiving. */
  lemma {:induction false} ReceivingAnswers(e: Endpoint, wires: seq<Wire>, now: int, failing: set<nat>)
    ensures var r := ReceiveAll(e, wires, now, failing);
            (forall id :: id in r.endpoint.pending <==> id in e.pending && !Responded(wires, r.consumed, id)) &&
            (forall id :: id in r.endpoint.pending ==> r.endpoint.pending[id] == e.pending[id]) &&
            (forall run :: run in r.endpoint.runs <==> run in e.runs || Heard(e, wires, r.consumed, now, run))
    decreases |wires|
  {
    if wires != [] {
      var h, r := ReceiveOne(e, wires[0], now, failing), ReceiveAll(e, wires, now, failing);
      FirstHandled(e, wires, now, failing);
      if h.ok {
        ReceivingAnswers(h.endpoint, wires[1..], now, failing);
      }
      hide First;
      hide ReceiveOne;
      hide Heard;
      hide Responded;
      forall id ensures id in r.endpoint.pending <==> id in e.pending && !Responded(wires, r.consumed, id) {
        RespondedCons(wires, r.consumed - 1, id);
        NothingYet(e, wires[1..], id, now, Run(id, TimedOut, now));
      }
      forall run ensures run in r.endpoint.runs <==> run in e.runs || Heard(e, wires, r.consumed, now, run) {
        if h.ok {
          HeardCons(e, wires, r.consumed - 1, now, failing, run);
        } else {
          OnlyOne(e, wires, now, run);
        }
      }
    }
  }

  lemma NothingYet(e: Endpoint, wires: seq<Wire>, id: nat, now: int, run: Run)
    ensures !Responded(wires, 0, id) && !Heard(e, wires, 0, now, run)
  {
  }

  lemma OnlyOne(e: Endpoint, wires: seq<Wire>, now: int, run: Run)
    requires wires != []
    ensures Heard(e, wires, 1, now, run) <==>
              First(e, wires, 0) && run == Run(wires[0].id, Answered(wires[0].answer), now)
  {
  }

  /** Where receiving stops. */
  lemma {:induction false} ReceivingEnds(e: Endpoint, wires: seq<Wire>, now: int, failing: set<nat>)
    ensures var r := ReceiveAll(e, wires, now, failing);
            (r.ok ==> r.consumed == |wires|) && (!r.ok ==> r.consumed > 0 && Ends(e, wires, r.consumed - 1, failing)) &&
            forall k :: 0 <= k < (if r.ok then r.consumed else r.consumed - 1) ==> !Ends(e, wires, k, failing)
    decreases |wires|
  {
    if wires != [] {
      var h, r := ReceiveOne(e, wires[0], now, failing), ReceiveAll(e, wires, now, failing);
      FirstHandled(e, wires, now, failing);
      if h.ok {
        ReceivingEnds(h.endpoint, wires[1..], now, failing);
        hide Ends;
        hide ReceiveOne;
        if !r.ok {
          OthersStay(e, wires, r.consumed - 2, now, failing);
        }
        forall k | 0 <= k < (if r.ok then r.consumed else r.consumed - 1) ensures !Ends(e, wires, k, failing) {
          if k > 0 {
            OthersStay(e, wires, k - 1, now, failing);
          }
        }
      }
    }
  }

  lemma {:induction false} ExpiringRuns(e: Endpoint, ids: seq<nat>, now: int, failing: set<nat>)
    requires (forall i, j :: 0 <= i < j < |ids| ==> ids[i] != ids[j]) && (forall id :: id in ids ==> id in e.pending)
    ensures var h := ExpireAll(e, ids, now, failing);
            (h.ok <==> forall id :: id in ids ==> id !in failing) &&
            (h.ok ==> forall id :: id in h.endpoint.pending <==> id in e.pending && id !in ids) &&
            (forall id :: id in h.endpoint.pending ==> id in e.pending && h.endpoint.pending[id] == e.pending[id]) &&
            (h.ok ==> forall run :: run in h.endpoint.runs <==>
              run in e.runs || (run.id in ids && run == Run(run.id, TimedOut, now)))
    decreases |ids|
  {
    if ids != [] {
      var next := ExpireOne(e, ids[0], now);
      assert forall id :: id in ids <==> id == ids[0] || id in ids[1..];
      forall id | id in ids[1..] ensures id in next.pending {
        var j :| 0 <= j < |ids[1..]| && ids[1..][j] == id;
        assert ids[0] != ids[j + 1];
      }
      ExpiringRuns(next, ids[1..], now, failing);
      assert forall run :: run in next.runs <==> run in e.runs || run == Run(ids[0], TimedOut, now);
    }
  }

  /** After the expired callbacks ran well, only what was not overdue is waiting. */
  lemma ExpiringLeaves(e: Endpoint, ids: seq<nat>, wires: seq<Wire>, k: nat, now: int, failing: set<nat>)
    requires ListsExpired(ids, e, now) && ExpireAll(e, ids, now, failing).ok
    ensures var mid := ExpireAll(e, ids, now, failing).endpoint;
            (First(mid, wires, k) <==> Awaited(e, wires, k, now)) &&
            (Ends(mid, wires, k, failing) <==> Refused(e, wires, k, now, failing))
  {
    hide ExpireAll;
    hide Responded;
    ExpiringRuns(e, ids, now, failing);
  }

  /** Every response taken from the channel is heard. A process call fails exactly when an overdue
      callback fails or some response is one nobody waits for or has a failing callback, and then it
      stops right behind the first such response. What it leaves waiting are the requests that were
      neither overdue nor responded to, and the callbacks it runs are the timeouts of the overdue
      requests and, for each first response to a request in time, that request's with that answer. */
  lemma ProcessAnswers(e: Endpoint, ids: seq<nat>, wires: seq<Wire>, now: int, failing: set<nat>)
    requires ListsExpired(ids, e, now)
    ensures Outcomes(e, wires, now, failing, ProcessEndpoint(e, ids, wires, now, failing))
  {
    hide ExpireAll;
    hide ReceiveAll;
    hide First;
    hide Ends;
    hide Awaited;
    hide Refused;
    hide Responded;
    ExpiringRuns(e, ids, now, failing);
    var expired, r := ExpireAll(e, ids, now, failing), ProcessEndpoint(e, ids, wires, now, failing);
    if expired.ok {
      var mid := expired.endpoint;
      ReceivingAnswers(mid, wires, now, failing);
      ReceivingEnds(mid, wires, now, failing);
      forall k: nat
        ensures First(mid, wires, k) <==> Awaited(e, wires, k, now)
        ensures Ends(mid, wires, k, failing) <==> Refused(e, wires, k, now, failing)
      {
        ExpiringLeaves(e, ids, wires, k, now, failing);
      }
    }
  }

  ghost predicate AnsweredBy(e: Endpoint, wires: seq<Wire>, n: nat, now: int, run: Run) {
    exists k :: 0 <= k < n && k < |wires| && Awaited(e, wires, k, now) &&
                run == Run(wires[k].id, Answered(wires[k].answer), now)
  }

  /** What a process call on `e` comes to, said by the messages and the deadlines only. */
  ghost predicate Outcomes(e: Endpoint, wires: seq<Wire>, now: int, failing: set<nat>, r: Received) {
    var tracked := forall id :: Expired(e, id, now) ==> id !in failing;
    (r.ok <==> tracked && forall k :: 0 <= k < |wires| ==> !Refused(e, wires, k, now, failing)) &&
    (!tracked ==> r.consumed == 0) &&
    (r.ok ==> r.consumed == |wires|) &&
    (tracked && !r.ok ==> 0 < r.consumed <= |wires| && Refused(e, wires, r.consumed - 1, now, failing)) &&
    (forall k :: 0 <= k < r.consumed - 1 ==> !Refused(e, wires, k, now, failing)) &&
    (tracked ==> forall id :: id in r.endpoint.pending <==>
      id in e.pending && now <= e.pending[id] && !Responded(wires, r.consumed, id)) &&
    (tracked ==> forall run :: run in r.endpoint.runs <==>
      run in e.runs || (Expired(e, run.id, now) && run == Run(run.id, TimedOut, now)) ||
      AnsweredBy(e, wires, r.consumed, now, run))
  }

  // ----- Over every interleaving -----

  /** An answer its asker still waits for travels to the asker. */
  ghost predicate Delivered(s: System, id: nat) {
    id in s.answers && id in s.issued ==>
      var half := s.At(s.issued[id].side);
      id in half.endpoint.pending ==> Response(id, s.answers[id]) in half.inbox
  }

  lemma StepDelivers(s: System, step: Step, id: nat)
    requires Inv(s) && Enabled(s, step) && Delivered(s, id)
    ensures Delivered(Apply(s, step), id)
  {
    hide Inv;
    match step
    case Receive(at, failing) => ReceiveDelivers(s, at, failing, id);
    case Respond(from, i, answer) => RespondDelivers(s, from, i, answer, id);
    case Ask(from, asked, _, _) => UnaskedUnanswered(s, asked);
    case _ =>
  }

  lemma UnaskedUnanswered(s: System, id: nat)
    requires Inv(s) && id !in s.issued
    ensures id !in s.answers
  {
  }

  lemma ReceiveDelivers(s: System, at: Side, failing: set<nat>, id: nat)
    requires Inv(s) && Enabled(s, Receive(at, failing)) && Delivered(s, id)
    ensures Delivered(Apply(s, Receive(at, failing)), id)
  {
    InvSide(s, at);
    var wire := s.At(at).inbox[0];
    assert WireOk(s, wire, at);
    hide Inv;
    hide SideOk;
    assert forall w :: w in s.At(at).inbox ==> w == wire || w in s.At(at).inbox[1..];
  }

  lemma RespondDelivers(s: System, from: Side, i: nat, answer: Answer, id: nat)
    requires Inv(s) && Enabled(s, Respond(from, i, answer)) && Delivered(s, id)
    ensures Delivered(Apply(s, Respond(from, i, answer)), id)
  {
    InvSide(s, from);
    assert Unanswered(s, s.At(from).held[i], from);
    hide Inv;
    hide SideOk;
    RespondEffect(s, from, i, answer);
    hide Apply;
    var s', to := Apply(s, Respond(from, i, answer)), Other(from);
    if s.At(from).held[i].id == Some(id) && s.At(to).open {
      assert s'.At(to).inbox[|s.At(to).inbox|] == Response(id, answer);
    } else if id in s.answers && id in s.issued {
      var side := s.issued[id].side;
      assert forall w :: w in s.At(side).inbox ==> w in s'.At(side).inbox;
    }
  }

  lemma RespondEffect(s: System, from: Side, i: nat, answer: Answer)
    requires Enabled(s, Respond(from, i, answer))
    ensures var s', to, id := Apply(s, Respond(from, i, answer)), Other(from), s.At(from).held[i].id;
            s'.issued == s.issued && s'.At(from).inbox == s.At(from).inbox &&
            s'.At(from).endpoint == s.At(from).endpoint && s'.At(to).endpoint == s.At(to).endpoint &&
            if id.Some? && s.At(to).open
            then s'.At(to).inbox == s.At(to).inbox + [Response(id.value, answer)] &&
                 s'.answers == s.answers[id.value := answer]
            else s'.At(to).inbox == s.At(to).inbox && s'.answers == s.answers
  {
  }

  lemma AnswerStays(s: System, step: Step, id: nat)
    requires Inv(s) && Enabled(s, step) && id in s.answers
    ensures var s' := Apply(s, step);
            id in s'.answers && s'.answers[id] == s.answers[id] && id in s'.issued && s'.issued[id] == s.issued[id]
  {
    hide RunOk;
    hide Handles;
    hide Callbacks;
    InvSide(s, Parent);
    InvSide(s, Child);
    if step.Respond? {
      assert Unanswered(s, s.At(step.from).held[step.index], step.from);
    }
  }

  lemma {:induction false} RunDelivers(s: System, steps: seq<Step>, id: nat)
    requires Inv(s) && ValidRun(s, steps) && Delivered(s, id)
    ensures Delivered(RunSteps(s, steps), id)
    ensures id in s.answers ==>
              var s' := RunSteps(s, steps);
              id in s'.answers && s'.answers[id] == s.answers[id] && id in s'.issued && s'.issued[id] == s.issued[id]
    decreases |steps|
  {
    if steps != [] {
      hide Apply;
      StepKeeps(s, steps[0]);
      StepDelivers(s, steps[0], id);
      if id in s.answers {
        AnswerStays(s, steps[0], id);
      }
      hide Inv;
      hide Delivered;
      RunDelivers(Apply(s, steps[0]), steps[1..], id);
    }
  }

  /** The callback of request `id` has run, with its answer or because time ran out before. */
  ghost predicate Resolved(e: Endpoint, id: nat, answer: Answer) {
    exists i :: 0 <= i < |e.runs| && e.runs[i].id == id &&
                (e.runs[i].outcome == Answered(answer) || e.runs[i].outcome == TimedOut)
  }

  lemma NotTravelling(s: System, id: nat)
    requires Inv(s) && Delivered(s, id) && id in s.answers
    requires forall w :: w in s.At(s.issued[id].side).inbox && w.Response? ==> w.id != id
    ensures Resolved(s.At(s.issued[id].side).endpoint, id, s.answers[id])
  {
    InvCorrelates(s, id);
    var runs := s.At(s.issued[id].side).endpoint.runs;
    var i := RunFound(runs, id);
  }

  /** Answers are heard: over every interleaving, once a request is answered and no response to it
      travels any more, its asker's callback has run, with exactly that answer or, earlier, with a
      timeout. */
  lemma AnswersAreHeard(steps: seq<Step>, id: nat)
    requires ValidRun(NEW_SYSTEM, steps) && id in RunSteps(NEW_SYSTEM, steps).answers
    ensures var s := RunSteps(NEW_SYSTEM, steps);
            id in s.issued &&
            ((forall w :: w in s.At(s.issued[id].side).inbox && w.Response? ==> w.id != id) ==>
              Resolved(s.At(s.issued[id].side).endpoint, id, s.answers[id]))
  {
    NewIsFine();
    RunKeeps(NEW_SYSTEM, steps);
    RunDelivers(NEW_SYSTEM, steps, id);
    var s := RunSteps(NEW_SYSTEM, steps);
    assert id in s.issued;
    if forall w :: w in s.At(s.issued[id].side).inbox && w.Response? ==> w.id != id {
      hide Inv;
      hide Delivered;
      NotTravelling(s, id);
    }
  }

  /** The same from the responder's side: answer a held request while its asker exists, and in every
      continuation the asker hears that answer, has timed out, or the response still travels. */
  lemma RespondIsHeard(before: seq<Step>, from: Side, i: nat, answer: Answer, after: seq<Step>)
    requires ValidRun(NEW_SYSTEM, before) && Enabled(RunSteps(NEW_SYSTEM, before), Respond(from, i, answer))
    requires RunSteps(NEW_SYSTEM, before).At(from).held[i].id.Some?
    requires RunSteps(NEW_SYSTEM, before).At(Other(from)).open
    requires ValidRun(Apply(RunSteps(NEW_SYSTEM, before), Respond(from, i, answer)), after)
    ensures var id := RunSteps(NEW_SYSTEM, before).At(from).held[i].id.value;
            var asker := RunSteps(Apply(RunSteps(NEW_SYSTEM, before), Respond(from, i, answer)), after).At(Other(from));
            Response(id, answer) in asker.inbox || Resolved(asker.endpoint, id, answer)
  {
    NewIsFine();
    RunKeeps(NEW_SYSTEM, before);
    var s, step := RunSteps(NEW_SYSTEM, before), Respond(from, i, answer);
    var id := s.At(from).held[i].id.value;
    JustAnswered(s, from, i, answer);
    StepKeeps(s, step);
    hide Inv;
    hide Apply;
    var s1 := Apply(s, step);
    RunKeeps(s1, after);
    RunDelivers(s1, after, id);
    var s2 := RunSteps(s1, after);
    if Response(id, answer) !in s2.At(Other(from)).inbox {
      OnlyTheAnswer(s2, id);
      NotTravelling(s2, id);
    }
  }

  lemma JustAnswered(s: System, from: Side, i: nat, answer: Answer)
    requires Inv(s) && Enabled(s, Respond(from, i, answer)) && s.At(from).held[i].id.Some? && s.At(Other(from)).open
    ensures var s', id := Apply(s, Respond(from, i, answer)), s.At(from).held[i].id.value;
            id in s'.answers && s'.answers[id] == answer && IssuedBy(s', id, Other(from)) && Delivered(s', id)
  {
    hide RunOk;
    hide Handles;
    hide Callbacks;
    InvSide(s, from);
    assert Unanswered(s, s.At(from).held[i], from);
  }

  lemma OnlyTheAnswer(s: System, id: nat)
    requires Inv(s) && id in s.answers
    ensures forall w :: w in s.At(s.issued[id].side).inbox && w.Response? && w.id == id ==>
              w == Response(id, s.answers[id])
  {
    var side := s.issued[id].side;
    InvSide(s, side);
    forall w | w in s.At(side).inbox && w.Response? && w.id == id ensures w == Response(id, s.answers[id]) {
      var j :| 0 <= j < |s.At(side).inbox| && s.At(side).inbox[j] == w;
      assert WireOk(s, s.At(side).inbox[j], side);
    }
  }

  // ----- Timeouts, by the steps alone -----

  lemma {:induction false} IssuesStay(s: System, steps: seq<Step>, id: nat)
    requires ValidRun(s, steps) && id in s.issued
    ensures id in RunSteps(s, steps).issued && RunSteps(s, steps).issued[id] == s.issued[id]
    decreases |steps|
  {
    if steps != [] {
      IssueStays(s, steps[0], id);
      hide Apply;
      hide Enabled;
      IssuesStay(Apply(s, steps[0]), steps[1..], id);
    }
  }

  lemma IssueStays(s: System, step: Step, id: nat)
    requires Enabled(s, step) && id in s.issued
    ensures id in Apply(s, step).issued && Apply(s, step).issued[id] == s.issued[id]
  {
    hide ReceiveOne;
    hide ExpireOne;
  }

  /** A request is given its time: in every continuation after asking, its callback hears of a timeout
      only once more than the asked time has passed. */
  lemma GivenItsTime(before: seq<Step>, from: Side, id: nat, payload: Payload, timeout: nat, after: seq<Step>, i: nat)
    requires ValidRun(NEW_SYSTEM, before)
    requires Enabled(RunSteps(NEW_SYSTEM, before), Ask(from, id, payload, timeout))
    requires ValidRun(Apply(RunSteps(NEW_SYSTEM, before), Ask(from, id, payload, timeout)), after)
    requires var s := RunSteps(Apply(RunSteps(NEW_SYSTEM, before), Ask(from, id, payload, timeout)), after);
             i < |s.At(from).endpoint.runs| && s.At(from).endpoint.runs[i].id == id &&
             s.At(from).endpoint.runs[i].outcome == TimedOut
    ensures var s := RunSteps(Apply(RunSteps(NEW_SYSTEM, before), Ask(from, id, payload, timeout)), after);
            s.At(from).endpoint.runs[i].at > RunSteps(NEW_SYSTEM, before).clock + timeout
  {
    NewIsFine();
    RunKeeps(NEW_SYSTEM, before);
    var s, step := RunSteps(NEW_SYSTEM, before), Ask(from, id, payload, timeout);
    var s1 := Apply(s, step);
    assert id in s1.issued && s1.issued[id].deadline == s.clock + timeout;
    StepKeeps(s, step);
    hide Apply;
    hide Enabled;
    RunKeeps(s1, after);
    IssuesStay(s1, after, id);
    var end := RunSteps(s1, after);
    hide RunSteps;
    hide ValidRun;
    InvSide(end, from);
    assert RunOk(end, end.At(from).endpoint.runs[i], from);
  }

  // ----- What is sent, by the steps alone -----

  /** What a step offers to side `to`. */
  function OfferedBy(step: Step, to: Side): seq<Message> {
    match step
    case Ask(from, id, payload, _) => if from == to then [] else [Message(Some(id), payload)]
    case Publish(from, payload) => if from == to then [] else [Message(None, payload)]
    case _ => []
  }

  /** The requests and events the other side makes while `to` exists, read off the steps. */
  function Offered(steps: seq<Step>, to: Side, open: bool): seq<Message>
    decreases |steps|
  {
    if steps == [] || !open then [] else OfferedBy(steps[0], to) + Offered(steps[1..], to, steps[0] != Close(to))
  }

  lemma StepOffers(s: System, step: Step, to: Side)
    requires Enabled(s, step)
    ensures var half, half' := s.At(to), Apply(s, step).At(to);
            half'.sent == half.sent + (if half.open then OfferedBy(step, to) else []) &&
            half'.open == (half.open && step != Close(to))
  {
    hide ReceiveOne;
    hide ExpireOne;
  }

  lemma {:induction false} SentIsOffered(s: System, steps: seq<Step>, to: Side)
    requires ValidRun(s, steps)
    ensures RunSteps(s, steps).At(to).sent == s.At(to).sent + Offered(steps, to, s.At(to).open)
    decreases |steps|
  {
    if steps != [] {
      StepOffers(s, steps[0], to);
      hide Apply;
      hide Enabled;
      hide OfferedBy;
      SentIsOffered(Apply(s, steps[0]), steps[1..], to);
      var mine, first := s.At(to).sent, OfferedBy(steps[0], to);
      var rest := Offered(steps[1..], to, s.At(to).open && steps[0] != Close(to));
      assert (mine + first) + rest == mine + (first + rest);
    }
  }

  /** Nothing is lost on the way: in every run what a user has drained, what waits in its outbox and
      what still travels to it is, in order, every request and event the other user made while this
      endpoint existed. */
  lemma EverythingOfferedArrives(steps: seq<Step>, to: Side)
    requires ValidRun(NEW_SYSTEM, steps)
    ensures var half := RunSteps(NEW_SYSTEM, steps).At(to);
            half.drained + half.endpoint.outbox + Requests(half.inbox) == Offered(steps, to, true)
  {
    hide ValidRun;
    hide RunSteps;
    hide Offered;
    FifoConservation(NEW_SYSTEM, steps);
    SentIsOffered(NEW_SYSTEM, steps, to);
    var half := RunSteps(NEW_SYSTEM, steps).At(to);
    assert Fifo(half);
    assert half.sent == [] + Offered(steps, to, true) == Offered(steps, to, true);
  }
}
