/** An endpoint of the ghost channel as an object. */
module GhostEndpoint {
  import opened GhostChannel
  import opened GhostChannelProofs
  import opened GhostAnswers
  import opened Wrappers

  /** An unbounded FIFO channel; it closes when the other end is dropped. */
  class Channel {
    var queue: seq<Wire>
    var open: bool

    constructor ()
      ensures queue == [] && open
    {
      queue, open := [], true;
    }

    method Push(wire: Wire) returns (ok: bool)
      modifies this`queue
      ensures ok == open
      ensures queue == if open then old(queue) + [wire] else old(queue)
    {
      if open {
        queue := queue + [wire];
      }
      return open;
    }
  }

  datatype Problem = NoProblem | CallbackOrIdProblem | Disconnected

  class GhostContextEndpoint {
    const sender: Channel
    const receiver: Channel
    var pending: map<nat, int>
    var outbox: seq<Message>
    var runs: seq<Run>

    function State(): Endpoint
      reads this
    {
      Endpoint(pending, outbox, runs)
    }

    /** No request has two callbacks: each id waits in the tracker, has run once, or is unknown. */
    ghost predicate Valid()
      reads this
    {
      forall id: nat :: CallbacksOf(State(), id) <= 1
    }

    constructor (sender: Channel, receiver: Channel)
      ensures Valid()
      ensures State() == Endpoint(map[], [], []) && this.sender == sender && this.receiver == receiver
    {
      this.sender, this.receiver := sender, receiver;
      pending, outbox, runs := map[], [], [];
    }

    /** Bookmark the callback, then send. If the channel is closed the callback stays bookmarked. */
    method PrivRequest(id: nat, payload: Payload, timeout: nat, now: int) returns (ok: bool)
      requires Valid() && CallbacksOf(State(), id) == 0
      modifies this`pending, sender`queue
      ensures Valid()
      ensures State() == old(State()).(pending := old(pending)[id := now + timeout])
      ensures ok == sender.open
      ensures sender.queue == if ok then old(sender.queue) + [Request(Some(id), payload)] else old(sender.queue)
    {
      ghost var before := State();
      pending := pending[id := now + timeout];
      forall k: nat ensures CallbacksOf(State(), k) == CallbacksOf(before, k) + (if k == id then 1 else 0) {
      }
      ok := sender.Push(Request(Some(id), payload));
    }

    method DrainMessages() returns (messages: seq<Message>)
      requires Valid()
      modifies this`outbox
      ensures Valid()
      ensures messages == old(outbox) && outbox == []
    {
      ghost var before := State();
      messages := outbox;
      outbox := [];
      assert forall k: nat :: CallbacksOf(State(), k) == CallbacksOf(before, k);
    }

    /** Collect the expired ids, then remove each and run its callback until one fails. */
    method ProcessTracker(now: int, failing: set<nat>) returns (ok: bool, ghost ids: seq<nat>)
      modifies this`pending, this`runs
      ensures ListsExpired(ids, old(State()), now)
      ensures Handled(State(), ok) == ExpireAll(old(State()), ids, now, failing)
    {
      var expired := CollectExpired(now);
      ids := expired;
      ghost var start := State();
      var i := 0;
      while i < |expired|
        invariant 0 <= i <= |expired|
        invariant outbox == old(outbox)
        invariant ExpireAll(start, expired, now, failing) == ExpireAll(State(), expired[i..], now, failing)
      {
        var id := expired[i];
        assert expired[i..][0] == id && expired[i..][1..] == expired[i + 1..];
        if id in pending {
          pending := pending - {id};
          runs := runs + [Run(id, TimedOut, now)];
          if id in failing {
            return false, ids;
          }
        }
        i := i + 1;
      }
      return true, ids;
    }

    method CollectExpired(now: int) returns (expired: seq<nat>)
      ensures ListsExpired(expired, State(), now)
    {
      expired := [];
      var todo := pending.Keys;
      while todo != {}
        invariant todo <= pending.Keys
        invariant forall i, j :: 0 <= i < j < |expired| ==> expired[i] != expired[j]
        invariant forall id :: id in expired <==> id !in todo && Expired(State(), id, now)
        decreases todo
      {
        var id :| id in todo;
        todo := todo - {id};
        if now > pending[id] {
          assert forall i :: 0 <= i < |expired| ==> expired[i] in expired;
          expired := expired + [id];
        }
      }
    }

    /** Empty the channel, stopping after a response that fails. */
    method ReceiveMessages(now: int, failing: set<nat>) returns (ok: bool)
      modifies this, receiver`queue
      ensures var r := ReceiveAll(old(State()), old(receiver.queue), now, failing);
              State() == r.endpoint && receiver.queue == old(receiver.queue)[r.consumed..] && ok == r.ok
    {
      ghost var start, wires := State(), receiver.queue;
      ghost var consumed := 0;
      while receiver.queue != []
        invariant consumed <= |wires| && receiver.queue == wires[consumed..]
        invariant var r := ReceiveAll(start, wires, now, failing);
                  var rest := ReceiveAll(State(), receiver.queue, now, failing);
                  r == Received(rest.endpoint, consumed + rest.consumed, rest.ok)
        decreases |receiver.queue|
      {
        var wire := receiver.queue[0];
        receiver.queue := receiver.queue[1..];
        consumed := consumed + 1;
        match wire
        case Request(id, payload) =>
          outbox := outbox + [Message(id, payload)];
        case Response(id, answer) =>
          if id !in pending {
            return false;
          }
          pending := pending - {id};
          runs := runs + [Run(id, Answered(answer), now)];
          if id in failing {
            return false;
          }
      }
      ok := true;
    }

    /** Time out what is overdue, then empty the channel. On an error the channel has lost exactly the
        messages up to and including the failing one; the rest is still there, in order. No callback is
        lost or doubled, every request taken from the channel is in the outbox, and unless a callback or
        a response failed nothing overdue is left waiting. `Outcomes` says which callbacks ran, with what
        answer, and when the call fails. */
    method Process(now: int, failing: set<nat>) returns (problem: Problem, ghost ids: seq<nat>)
      requires Valid()
      modifies this, receiver`queue
      ensures Valid() && forall id: nat :: CallbacksOf(State(), id) == old(CallbacksOf(State(), id))
      ensures ListsExpired(ids, old(State()), now)
      ensures problem != CallbackOrIdProblem ==> forall id :: id in pending ==> now <= pending[id]
      ensures var r := ProcessEndpoint(old(State()), ids, old(receiver.queue), now, failing);
              State() == r.endpoint && receiver.queue == old(receiver.queue)[r.consumed..] &&
              outbox == old(outbox) + Requests(old(receiver.queue)[..r.consumed]) &&
              (problem == CallbackOrIdProblem <==> !r.ok) && (problem == Disconnected <==> r.ok && !receiver.open)
      ensures var consumed := |old(receiver.queue)| - |receiver.queue|;
              0 <= consumed && receiver.queue == old(receiver.queue)[consumed..] &&
              Outcomes(old(State()), old(receiver.queue), now, failing,
                       Received(State(), consumed, problem != CallbackOrIdProblem))
    {
      ghost var start, wires := State(), receiver.queue;
      var ok: bool;
      ok, ids := ProcessTracker(now, failing);
      ProcessConserves(start, ids, wires, now, failing);
      ProcessAnswers(start, ids, wires, now, failing);
      if ok {
        OverdueTimesOut(start, ids, wires, now, failing);
        ok := ReceiveMessages(now, failing);
      } else {
        assert wires[0..] == wires;
      }
      problem := if !ok then CallbackOrIdProblem else if receiver.open then NoProblem else Disconnected;
    }
  }
}
