/** What the peer table of a MirrorDht node guarantees over whole runs: the table is a join of
    everything received, and the timeout reports follow a strict protocol. */
module PeerTable {
  import opened MirrorDht
  import opened Wrappers

  // ----- The table is a join -----

  datatype Call = Call(peer: PeerData, now: u64)

  function AddPeers(node: Node, calls: seq<Call>): Node {
    if calls == [] then node
    else AddPeer(AddPeers(node, calls[..|calls| - 1]), calls[|calls| - 1].peer, calls[|calls| - 1].now)
  }

  /** `record` is the join of the calls about its name: newest timestamp, location of the first. */
  ghost predicate IsJoin(record: PeerData, calls: seq<Call>) {
    (exists i :: 0 <= i < |calls| && calls[i].peer.name == record.name &&
      calls[i].peer.timestamp == record.timestamp) &&
    (forall i :: 0 <= i < |calls| && calls[i].peer.name == record.name ==>
      calls[i].peer.timestamp <= record.timestamp) &&
    (exists i :: 0 <= i < |calls| && calls[i].peer.name == record.name && calls[i].peer.location == record.location &&
      forall j :: 0 <= j < i ==> calls[j].peer.name != record.name)
  }

  ghost predicate Mentioned(name: Uri, calls: seq<Call>) {
    exists i :: 0 <= i < |calls| && calls[i].peer.name == name
  }

  ghost predicate IsTable(peers: map<Uri, PeerData>, calls: seq<Call>) {
    (forall name :: name in peers <==> Mentioned(name, calls)) &&
    (forall name :: name in peers ==> peers[name].name == name && IsJoin(peers[name], calls))
  }

  /** After any calls the table lists exactly the names received, each with the newest timestamp
      received for it and the location received first. */
  lemma {:induction false} TableIsJoin(node: Node, calls: seq<Call>)
    requires node.peers == map[]
    ensures IsTable(AddPeers(node, calls).peers, calls)
  {
    if calls != [] {
      var before, last := calls[..|calls| - 1], calls[|calls| - 1];
      assert before + [last] == calls;
      TableIsJoin(node, before);
      var older, newer := AddPeers(node, before).peers, AddPeers(node, calls).peers;
      forall name ensures Mentioned(name, calls) <==> Mentioned(name, before) || name == last.peer.name {
        if Mentioned(name, before) {
          var i :| 0 <= i < |before| && before[i].peer.name == name;
          assert calls[i] == before[i];
        }
        assert calls[|before|] == last;
      }
      forall name | name in newer ensures newer[name].name == name && IsJoin(newer[name], calls) {
        if name in older {
          JoinStep(Some(older[name]), newer[name], before, last);
        } else {
          assert !Mentioned(name, before);
          JoinStep(None, newer[name], before, last);
        }
      }
    }
  }

  lemma JoinStep(known: Option<PeerData>, record: PeerData, before: seq<Call>, call: Call)
    requires known.Some? ==> known.value.name == record.name && IsJoin(known.value, before)
    requires known.None? ==> record == call.peer && forall i :: 0 <= i < |before| ==> before[i].peer.name != record.name
    requires known.Some? && call.peer.name != record.name ==> record == known.value
    requires known.Some? && call.peer.name == record.name ==>
               record == if call.peer.timestamp <= known.value.timestamp then known.value
                         else known.value.(timestamp := call.peer.timestamp)
    ensures IsJoin(record, before + [call])
  {
    var calls := before + [call];
    assert calls[|before|] == call;
    if known.Some? {
      var i :| 0 <= i < |before| && before[i].peer.name == record.name &&
               before[i].peer.timestamp == known.value.timestamp;
      assert calls[i] == before[i];
      var k :| 0 <= k < |before| && before[k].peer.name == record.name && before[k].peer.location == record.location &&
               forall j :: 0 <= j < k ==> before[j].peer.name != record.name;
      assert calls[k] == before[k];
    }
  }

  lemma {:induction false} CallsKeepSelf(node: Node, calls: seq<Call>)
    ensures AddPeers(node, calls).thisPeer == node.thisPeer
  {
    if calls != [] {
      CallsKeepSelf(node, calls[..|calls| - 1]);
    }
  }

  /** A name has one join. */
  lemma JoinUnique(a: PeerData, b: PeerData, calls: seq<Call>)
    requires IsJoin(a, calls) && IsJoin(b, calls) && a.name == b.name
    ensures a == b
  {
    var i :| 0 <= i < |calls| && calls[i].peer.name == a.name && calls[i].peer.location == a.location &&
             forall j :: 0 <= j < i ==> calls[j].peer.name != a.name;
    var k :| 0 <= k < |calls| && calls[k].peer.name == b.name && calls[k].peer.location == b.location &&
             forall j :: 0 <= j < k ==> calls[j].peer.name != b.name;
    assert i == k;
  }

  /** What the owner is answered: after any calls the peer list is exactly the joins of what was received,
      and a single peer is found with its join, or, asked for itself, the node with its own record. */
  lemma QueriesAnswerTheJoin(node: Node, calls: seq<Call>, name: Uri, now: u64)
    requires node.peers == map[]
    ensures var list := Handle(AddPeers(node, calls), RequestPeerList, now).answer;
            list.PeerListAnswer? && forall peer :: peer in list.peers <==> IsJoin(peer, calls)
    ensures var one := Handle(AddPeers(node, calls), RequestPeer(name), now).answer;
            one.PeerAnswer? &&
            if name == node.thisPeer.name then one.found == Some(node.thisPeer)
            else (one.found.Some? <==> Mentioned(name, calls)) &&
                 (one.found.Some? ==> one.found.value.name == name && IsJoin(one.found.value, calls))
  {
    TableIsJoin(node, calls);
    CallsKeepSelf(node, calls);
    var peers := AddPeers(node, calls).peers;
    hide AddPeers;
    forall peer ensures peer in peers.Values <==> IsJoin(peer, calls) {
      if IsJoin(peer, calls) {
        assert Mentioned(peer.name, calls);
        JoinUnique(peer, peers[peer.name], calls);
      }
    }
  }

  lemma MoreCallsMoreTable(calls: seq<Call>, more: seq<Call>, peers: map<Uri, PeerData>, peers': map<Uri, PeerData>)
    requires IsTable(peers, calls) && IsTable(peers', more) && forall call :: call in calls ==> call in more
    ensures forall name :: name in peers ==> name in peers' && peers[name].timestamp <= peers'[name].timestamp
  {
    forall name | name in peers ensures name in peers' && peers[name].timestamp <= peers'[name].timestamp {
      assert IsJoin(peers[name], calls);
      var i :| 0 <= i < |calls| && calls[i].peer.name == name && calls[i].peer.timestamp == peers[name].timestamp;
      assert calls[i] in calls;
      var k :| 0 <= k < |more| && more[k] == calls[i];
      assert Mentioned(name, more);
      assert IsJoin(peers'[name], more);
    }
  }

  /** Membership and timestamps do not depend on the order of arrival. */
  lemma OrderIrrelevant(node: Node, calls: seq<Call>, calls': seq<Call>)
    requires node.peers == map[]
    requires multiset(calls) == multiset(calls')
    ensures var peers, peers' := AddPeers(node, calls).peers, AddPeers(node, calls').peers;
            peers.Keys == peers'.Keys &&
            forall name :: name in peers ==> peers[name].timestamp == peers'[name].timestamp
  {
    hide AddPeers;
    hide IsTable;
    TableIsJoin(node, calls);
    TableIsJoin(node, calls');
    assert forall call :: call in calls <==> call in multiset(calls);
    assert forall call :: call in calls' <==> call in multiset(calls');
    MoreCallsMoreTable(calls, calls', AddPeers(node, calls).peers, AddPeers(node, calls').peers);
    MoreCallsMoreTable(calls', calls, AddPeers(node, calls').peers, AddPeers(node, calls).peers);
  }

  /** Locations do depend on it: the first one received is kept for good. */
  lemma OrderMattersForLocations(node: Node, first: PeerData, second: PeerData, now: u64)
    requires node.peers == map[]
    requires first.name == second.name && first.location != second.location
    ensures var calls, calls' := [Call(first, now), Call(second, now)], [Call(second, now), Call(first, now)];
            multiset(calls) == multiset(calls') &&
            AddPeers(node, calls).peers[first.name].location != AddPeers(node, calls').peers[first.name].location
  {
    var a, b := Call(first, now), Call(second, now);
    assert [a, b][..1] == [a] && [b, a][..1] == [b] && [a][..0] == [] && [b][..0] == [];
    assert AddPeers(node, [a]) == AddPeer(node, first, now);
    assert AddPeers(node, [b]) == AddPeer(node, second, now);
  }

  ghost predicate SameLocations(peers: map<Uri, PeerData>, peers': map<Uri, PeerData>) {
    peers.Keys == peers'.Keys && forall name :: name in peers ==> peers[name].location == peers'[name].location
  }

  /** Every order of the calls leaves the same locations. */
  ghost predicate OrderFree(node: Node, calls: seq<Call>) {
    forall calls' :: multiset(calls') == multiset(calls) ==>
      SameLocations(AddPeers(node, calls).peers, AddPeers(node, calls').peers)
  }

  /** The calls about a peer the node does not know yet all carry one location. */
  ghost predicate OneLocationEach(node: Node, calls: seq<Call>) {
    forall i, j | 0 <= i < |calls| && 0 <= j < |calls| && calls[i].peer.name == calls[j].peer.name ::
      calls[i].peer.name in node.peers || calls[i].peer.location == calls[j].peer.location
  }

  /** A known name keeps its location; a new one has the location of the first call about it. */
  lemma {:induction false} FirstLocation(node: Node, calls: seq<Call>, name: Uri)
    ensures var peers := AddPeers(node, calls).peers;
            (name in peers <==> name in node.peers || Mentioned(name, calls)) &&
            (name in node.peers ==> peers[name].location == node.peers[name].location) &&
            forall k :: 0 <= k < |calls| && calls[k].peer.name == name && name !in node.peers &&
                        (forall j :: 0 <= j < k ==> calls[j].peer.name != name) ==>
              peers[name].location == calls[k].peer.location
  {
    if calls != [] {
      var before, last := calls[..|calls| - 1], calls[|calls| - 1];
      FirstLocation(node, before, name);
      assert Mentioned(name, calls) <==> Mentioned(name, before) || name == last.peer.name by {
        if Mentioned(name, before) {
          var i :| 0 <= i < |before| && before[i].peer.name == name;
          assert calls[i] == before[i];
        }
      }
    }
  }

  lemma FirstMention(calls: seq<Call>, name: Uri) returns (k: nat)
    requires Mentioned(name, calls)
    ensures k < |calls| && calls[k].peer.name == name && forall j :: 0 <= j < k ==> calls[j].peer.name != name
  {
    k := 0;
    while calls[k].peer.name != name
      invariant k < |calls| && forall j :: 0 <= j < k ==> calls[j].peer.name != name
      decreases |calls| - k
    {
      var i :| 0 <= i < |calls| && calls[i].peer.name == name;
      k := k + 1;
    }
  }

  lemma SameMentions(calls: seq<Call>, calls': seq<Call>, name: Uri)
    requires multiset(calls) == multiset(calls') && Mentioned(name, calls)
    ensures Mentioned(name, calls')
  {
    var i :| 0 <= i < |calls| && calls[i].peer.name == name;
    assert calls[i] in multiset(calls');
  }

  /** The call at `k` moved to the front is a permutation, and decides the location. */
  lemma MovedFirst(node: Node, calls: seq<Call>, k: nat)
    requires k < |calls| && calls[k].peer.name !in node.peers
    ensures var calls' := [calls[k]] + (calls[..k] + calls[k + 1..]);
            multiset(calls') == multiset(calls) && calls[k].peer.name in AddPeers(node, calls').peers &&
            AddPeers(node, calls').peers[calls[k].peer.name].location == calls[k].peer.location
  {
    hide AddPeers;
    assert calls == calls[..k] + [calls[k]] + calls[k + 1..];
    var calls' := [calls[k]] + (calls[..k] + calls[k + 1..]);
    assert calls'[0] == calls[k] && Mentioned(calls[k].peer.name, calls');
    FirstLocation(node, calls', calls[k].peer.name);
  }

  /** Locations are independent of the order of arrival if and only if the calls about each peer the
      node does not know yet agree on its location. */
  lemma LocationsAgreeExactlyWhen(node: Node, calls: seq<Call>)
    ensures OrderFree(node, calls) <==> OneLocationEach(node, calls)
  {
    hide AddPeers;
    hide Mentioned;
    if OneLocationEach(node, calls) {
      forall calls' | multiset(calls') == multiset(calls)
        ensures SameLocations(AddPeers(node, calls).peers, AddPeers(node, calls').peers)
      {
        AgreeingCalls(node, calls, calls');
      }
    }
    if OrderFree(node, calls) {
      forall i, j | 0 <= i < |calls| && 0 <= j < |calls| && calls[i].peer.name == calls[j].peer.name &&
                    calls[i].peer.name !in node.peers
        ensures calls[i].peer.location == calls[j].peer.location
      {
        MovedFirst(node, calls, i);
        MovedFirst(node, calls, j);
      }
    }
  }

  lemma AgreeingCalls(node: Node, calls: seq<Call>, calls': seq<Call>)
    requires OneLocationEach(node, calls) && multiset(calls') == multiset(calls)
    ensures SameLocations(AddPeers(node, calls).peers, AddPeers(node, calls').peers)
  {
    hide AddPeers;
    hide Mentioned;
    var peers, peers' := AddPeers(node, calls).peers, AddPeers(node, calls').peers;
    forall name
      ensures name in peers <==> name in peers'
      ensures name in peers && name in peers' ==> peers[name].location == peers'[name].location
    {
      FirstLocation(node, calls, name);
      FirstLocation(node, calls', name);
      if Mentioned(name, calls') {
        SameMentions(calls', calls, name);
      }
      if Mentioned(name, calls) {
        SameMentions(calls, calls', name);
        var k := FirstMention(calls, name);
        var k' := FirstMention(calls', name);
        assert calls'[k'] in multiset(calls);
        var i :| 0 <= i < |calls| && calls[i] == calls'[k'];
      }
    }
  }

  /** The table order: at least the same names, none of them older. */
  ghost predicate AtMost(peers: map<Uri, PeerData>, peers': map<Uri, PeerData>) {
    forall name :: name in peers ==> name in peers' && peers[name].timestamp <= peers'[name].timestamp
  }

  /** add_peer never moves the table back, and reports true exactly when it moves it forward. */
  lemma AdvancesIffTableGrows(node: Node, peer: PeerData, now: u64)
    ensures AtMost(node.peers, AddPeer(node, peer, now).peers)
    ensures Advances(node, peer) <==> !AtMost(AddPeer(node, peer, now).peers, node.peers)
  {
  }

  // ----- Timeout protocol -----

  datatype Step = Receive(request: Request, now: u64) | Pass(now: u64)

  ghost function Apply(node: Node, step: Step): (r: Node)
    requires KeysAgree(node)
    ensures KeysAgree(r) && r.config == node.config && r.thisPeer.name == node.thisPeer.name
  {
    match step
    case Receive(request, now) =>
      HandleKeepsKeys(node, request, now);
      Handle(node, request, now).node
    case Pass(now) => Process(node, now)
  }

  /** The node after the first `i` steps. The flag map always covers exactly the known peers, so the
      lookup in a processing pass cannot fail. */
  ghost function After(node: Node, steps: seq<Step>, i: nat): (r: Node)
    requires KeysAgree(node) && i <= |steps|
    ensures KeysAgree(r)
    ensures r.config == node.config && r.thisPeer.name == node.thisPeer.name
  {
    if i == 0 then node else Apply(After(node, steps, i - 1), steps[i - 1])
  }

  /** Step `i` publishes PeerTimedOut(name). */
  ghost predicate Reports(node: Node, steps: seq<Step>, i: nat, name: Uri)
    requires KeysAgree(node)
  {
    i < |steps| && steps[i].Pass? && name in Expiring(After(node, steps, i), steps[i].now)
  }

  lemma StepKeepsTimestamp(node: Node, step: Step, name: Uri)
    requires KeysAgree(node) && name in node.peers
    ensures var node' := Apply(node, step);
            KeysAgree(node') && name in node'.peers && node.peers[name].timestamp <= node'.peers[name].timestamp &&
            (node.timedOut[name] && node.peers[name].timestamp == node'.peers[name].timestamp ==> node'.timedOut[name])
  {
  }

  lemma {:induction false} TimestampsNeverGoBack(node: Node, steps: seq<Step>, i: nat, j: nat, name: Uri)
    requires KeysAgree(node) && i <= j <= |steps|
    requires name in After(node, steps, i).peers
    ensures name in After(node, steps, j).peers
    ensures After(node, steps, i).peers[name].timestamp <= After(node, steps, j).peers[name].timestamp
    ensures After(node, steps, i).timedOut[name] &&
            After(node, steps, i).peers[name].timestamp == After(node, steps, j).peers[name].timestamp ==>
              After(node, steps, j).timedOut[name]
  {
    hide Apply;
    if i < j {
      TimestampsNeverGoBack(node, steps, i, j - 1, name);
      var before := After(node, steps, j - 1);
      StepKeepsTimestamp(before, steps[j - 1], name);
      assert After(node, steps, j) == Apply(before, steps[j - 1]);
    }
  }

  /** Between two reports of one peer a strictly newer timestamp was recorded for it. */
  lemma NoSecondReportWithoutNews(node: Node, steps: seq<Step>, i: nat, j: nat, name: Uri)
    requires KeysAgree(node) && i < j
    requires Reports(node, steps, i, name) && Reports(node, steps, j, name)
    ensures After(node, steps, i).peers[name].timestamp < After(node, steps, j).peers[name].timestamp
  {
    hide Apply;
    FlaggedAfterReport(node, steps, i, name);
    TimestampsNeverGoBack(node, steps, i + 1, j, name);
  }

  lemma FlaggedAfterReport(node: Node, steps: seq<Step>, i: nat, name: Uri)
    requires KeysAgree(node) && Reports(node, steps, i, name)
    ensures var before, after := After(node, steps, i), After(node, steps, i + 1);
            name in after.peers && after.timedOut[name] && after.peers[name] == before.peers[name]
  {
    hide Handle;
    assert After(node, steps, i + 1) == Apply(After(node, steps, i), steps[i]);
  }

  /** A pass reports a peer exactly when it is another peer, not flagged yet, and either really older
      than the threshold or stamped in the future by less than 2^64 minus the threshold; afterwards
      no peer that old is left unflagged. The reported peer really is that old exactly when its
      timestamp is not in the future. */
  lemma ReportedExactlyWhen(node: Node, now: u64, name: Uri)
    requires KeysAgree(node) && name in node.peers
    ensures name in Expiring(node, now) <==>
              name != node.thisPeer.name && !node.timedOut[name] &&
              (now - node.peers[name].timestamp > node.config.timeoutThreshold ||
               0 < node.peers[name].timestamp - now < U64_MODULUS - node.config.timeoutThreshold)
    ensures name in Expiring(node, now) ==>
              (node.peers[name].timestamp <= now <==> now - node.peers[name].timestamp > node.config.timeoutThreshold)
    ensures name != node.thisPeer.name && now - node.peers[name].timestamp > node.config.timeoutThreshold ==>
              Process(node, now).timedOut[name]
  {
  }

  /** The peer record a step puts into the table, if any. */
  function Recorded(node: Node, step: Step): Option<PeerData> {
    match step
    case Receive(HoldPeer(peer), _) => if Advances(node, peer) then Some(peer) else None
    case Receive(HandleGossip(Some(PeerGossip(peer))), _) =>
      (match GetPeer(node, peer.name)
       case None => None
       case Some(known) => if peer.timestamp > known.timestamp && Advances(node, peer) then Some(peer) else None)
    case _ => None
  }

  /** Flagged peers are at least as old as the threshold. */
  ghost predicate FlagsFit(node: Node, now: u64) {
    KeysAgree(node) &&
    forall name :: name in node.peers && node.timedOut[name] ==>
      now - node.peers[name].timestamp >= node.config.timeoutThreshold
  }

  /** A flagged peer is refreshed with a timestamp from the future, and its wrapped age keeps the flag. */
  predicate KeepsStaleFlag(node: Node, step: Step)
    requires KeysAgree(node)
  {
    var peer := Recorded(node, step);
    peer.Some? && peer.value.name in node.peers && node.timedOut[peer.value.name] &&
    peer.value.timestamp > step.now && Elapsed(step.now, peer.value.timestamp) >= node.config.timeoutThreshold
  }

  /** A pass reports a peer stamped in the future. */
  predicate ReportsFuture(node: Node, step: Step)
    requires KeysAgree(node)
  {
    step.Pass? && exists name :: name in Expiring(node, step.now) && node.peers[name].timestamp > step.now
  }

  predicate Wrong(node: Node, step: Step)
    requires KeysAgree(node)
  {
    KeepsStaleFlag(node, step) || ReportsFuture(node, step)
  }

  lemma FlagsFitAdd(node: Node, peer: PeerData, now: u64)
    requires FlagsFit(node, now) && Advances(node, peer)
    ensures FlagsFit(AddPeer(node, peer, now), now) <==>
            !(peer.name in node.peers && node.timedOut[peer.name] && peer.timestamp > now &&
              Elapsed(now, peer.timestamp) >= node.config.timeoutThreshold)
  {
    var node' := AddPeer(node, peer, now);
    assert peer.name in node'.peers;
    if peer.name in node.peers {
      assert node'.peers[peer.name].timestamp == peer.timestamp;
    }
  }

  lemma PassFits(node: Node, now: u64)
    requires FlagsFit(node, now)
    ensures FlagsFit(Process(node, now), now) <==> !ReportsFuture(node, Pass(now))
  {
    var node' := Process(node, now);
    if name :| name in Expiring(node, now) && node.peers[name].timestamp > now {
      assert node'.timedOut[name];
    }
  }

  lemma FlagsFitStep(node: Node, step: Step)
    requires FlagsFit(node, step.now)
    ensures FlagsFit(Apply(node, step), step.now) <==> !Wrong(node, step)
  {
    match step
    case Pass(now) =>
      PassFits(node, now);
    case Receive(request, now) =>
      var peer := Recorded(node, step);
      if peer.Some? {
        FlagsFitAdd(node, peer.value, now);
        assert Apply(node, step) == AddPeer(node, peer.value, now);
      } else {
        var node' := Apply(node, step);
        assert node'.peers == node.peers && node'.timedOut == node.timedOut && node'.config == node.config;
      }
  }

  lemma FlagsFitLater(node: Node, now: u64, later: u64)
    requires FlagsFit(node, now) && now <= later
    ensures FlagsFit(node, later)
  {
  }

  /** None of the first `i` steps goes wrong. */
  ghost predicate NoneWrong(node: Node, steps: seq<Step>, i: nat)
    requires KeysAgree(node) && i <= |steps|
  {
    forall k :: 0 <= k < i ==> !Wrong(After(node, steps, k), steps[k])
  }

  ghost predicate AlwaysFit(node: Node, steps: seq<Step>, i: nat)
    requires KeysAgree(node) && i <= |steps|
  {
    forall k :: 0 < k <= i ==> FlagsFit(After(node, steps, k), steps[k - 1].now)
  }

  ghost predicate Monotone(steps: seq<Step>) {
    forall j, k :: 0 <= j < k < |steps| ==> steps[j].now <= steps[k].now
  }

  /** With a clock that never runs backwards, every flagged peer is at all times at least as old as
      the threshold, exactly when no pass reports a peer stamped in the future and no flagged peer is
      refreshed from the future with its flag kept. */
  lemma {:induction false} FlaggedPeersAreOld(node: Node, steps: seq<Step>, i: nat)
    requires node.peers == map[] && KeysAgree(node) && i <= |steps| && Monotone(steps)
    ensures AlwaysFit(node, steps, i) <==> NoneWrong(node, steps, i)
  {
    if i > 0 {
      hide Apply;
      hide FlagsFit;
      hide Wrong;
      hide AlwaysFit;
      hide NoneWrong;
      FlaggedPeersAreOld(node, steps, i - 1);
      LastStep(node, steps, i);
      if AlwaysFit(node, steps, i - 1) {
        FitBefore(node, steps, i - 1);
        FlagsFitStep(After(node, steps, i - 1), steps[i - 1]);
      }
    }
  }

  lemma LastStep(node: Node, steps: seq<Step>, i: nat)
    requires KeysAgree(node) && 0 < i <= |steps|
    ensures After(node, steps, i) == Apply(After(node, steps, i - 1), steps[i - 1])
    ensures AlwaysFit(node, steps, i) <==>
            AlwaysFit(node, steps, i - 1) && FlagsFit(After(node, steps, i), steps[i - 1].now)
    ensures NoneWrong(node, steps, i) <==>
            NoneWrong(node, steps, i - 1) && !Wrong(After(node, steps, i - 1), steps[i - 1])
  {
    hide Apply;
    hide FlagsFit;
    hide Wrong;
  }

  lemma FitBefore(node: Node, steps: seq<Step>, i: nat)
    requires node.peers == map[] && KeysAgree(node) && i < |steps| && Monotone(steps)
    requires AlwaysFit(node, steps, i)
    ensures FlagsFit(After(node, steps, i), steps[i].now)
  {
    if i > 0 {
      assert FlagsFit(After(node, steps, i), steps[i - 1].now);
      FlagsFitLater(After(node, steps, i), steps[i - 1].now, steps[i].now);
    }
  }

  /** With a record stamped one tick ahead of the clock the promise fails: the very next pass reports
      the peer, whatever the threshold is. */
  lemma FutureStampTimesOutAtOnce(node: Node, peer: PeerData, now: u64)
    requires KeysAgree(node) && peer.name !in node.peers && peer.name != node.thisPeer.name
    requires peer.timestamp == now + 1 && node.config.timeoutThreshold < U64_MODULUS - 1
    ensures var steps := [Receive(HoldPeer(peer), now), Pass(now)];
            Reports(node, steps, 1, peer.name) && !FlagsFit(After(node, steps, 2), now)
  {
    var steps := [Receive(HoldPeer(peer), now), Pass(now)];
    assert After(node, steps, 1) == AddPeer(After(node, steps, 0), peer, now);
    assert After(node, steps, 2) == Process(After(node, steps, 1), now);
    assert peer.name in After(node, steps, 2).peers;
  }

  /** It also fails the other way round: a peer that rightly timed out and comes back with a record
      stamped one tick ahead stays flagged, although it could not be fresher. */
  lemma FutureRefreshStaysFlagged(node: Node, stale: PeerData, renewed: PeerData, now: u64)
    requires node.peers == map[] && KeysAgree(node) && stale.name == renewed.name != node.thisPeer.name
    requires now - stale.timestamp > node.config.timeoutThreshold && renewed.timestamp == now + 1
    ensures var steps := [Receive(HoldPeer(stale), now), Pass(now), Receive(HoldPeer(renewed), now)];
            FlagsFit(After(node, steps, 2), now) && After(node, steps, 3).peers[stale.name].timestamp == now + 1 &&
            After(node, steps, 3).timedOut[stale.name] && !FlagsFit(After(node, steps, 3), now)
  {
    var steps := [Receive(HoldPeer(stale), now), Pass(now), Receive(HoldPeer(renewed), now)];
    var one, two := After(node, steps, 1), After(node, steps, 2);
    assert one == AddPeer(After(node, steps, 0), stale, now);
    assert two == Process(one, now);
    assert two.peers == map[stale.name := stale] && two.timedOut[stale.name];
    assert After(node, steps, 3) == AddPeer(two, renewed, now);
  }
}
