/** Whole runs of a network of MirrorDht nodes: when everyone ends up holding everything. */
module GossipConvergence {
  import opened MirrorDht
  import opened GossipNetwork

  // ----- Whole runs -----

  ghost predicate Initial(net: Net) {
    Quiescent(net) && net.requested == {} && net.published == {} &&
    forall name :: name in net.nodes ==> net.nodes[name].entries == map[]
  }

  ghost predicate TimelyRun(net: Net, steps: seq<Step>)
    requires ValidRun(net, steps)
    decreases |steps|
  {
    steps != [] ==> Timely(net, steps[0]) && TimelyRun(Apply(net, steps[0]), steps[1..])
  }

  ghost function PublishedBy(steps: seq<Step>): set<(EntryHash, AspectHash)> {
    if steps == [] then {}
    else (if steps[0].Broadcast? then Pairs(steps[0].entry) else {}) + PublishedBy(steps[1..])
  }

  /** The step broadcasts aspects of `address`. */
  predicate Broadcasts(step: Step, address: EntryHash) {
    step.Broadcast? && step.entry.address == address
  }

  ghost predicate NoShallowBroadcast(steps: seq<Step>, address: EntryHash) {
    forall i :: 0 <= i < |steps| && Broadcasts(steps[i], address) ==> !Shallow(steps[i].entry)
  }

  predicate FullFor(envelope: Envelope, address: EntryHash) {
    envelope.entry.address == address ==> !Shallow(envelope.entry)
  }

  /** For this address no shallow entry is in flight and no owner had to be asked. */
  ghost predicate Deep(net: Net, address: EntryHash) {
    (forall name :: (name, address) !in net.requested) &&
    (forall envelope :: envelope in net.gossip ==> FullFor(envelope, address)) &&
    (forall envelope :: envelope in net.holds ==> FullFor(envelope, address))
  }

  /** Nothing published is ever forgotten by everyone. */
  ghost predicate Kept(net: Net) {
    forall pair :: pair in net.published ==> exists name :: Holds(net, name, pair.0, pair.1)
  }

  lemma StoreKeeps(net: Net, at: Uri, entry: EntryData, request: Request)
    requires Kept(net.(published := net.published - Pairs(entry))) || Kept(net)
    requires at in net.nodes
    requires request == BroadcastEntry(entry) || (request == HoldEntryAspectAddress(entry) && !Shallow(entry))
    ensures Kept(Serve(net, at, request, 0))
  {
    var net' := Serve(net, at, request, 0);
    StoreEffect(net, at, entry, request);
    forall address { StoredAspects(net.nodes[at], entry, address); }
    forall pair | pair in net'.published ensures exists name :: Holds(net', name, pair.0, pair.1) {
      if pair in Pairs(entry) {
        assert Holds(net', at, pair.0, pair.1);
      } else {
        var net1 := if Kept(net) then net else net.(published := net.published - Pairs(entry));
        assert pair in net1.published;
        var name :| Holds(net1, name, pair.0, pair.1);
        assert Holds(net', name, pair.0, pair.1);
      }
    }
  }

  lemma StepKeeps(net: Net, step: Step)
    requires Kept(net) && Enabled(net, step)
    ensures Kept(Apply(net, step))
  {
    hide Serve;
    var net' := Apply(net, step);
    match step
    case Broadcast(at, entry) =>
      var net1 := net.(published := net.published + Pairs(entry));
      StillKept(net, net1.(published := net1.published - Pairs(entry)));
      StoreKeeps(net1, at, entry, BroadcastEntry(entry));
    case DeliverGossip(envelope) =>
      GossipEffect(net, envelope);
      StillKept(net, net');
    case DeliverHold(envelope) =>
      if Shallow(envelope.entry) {
        ShallowEffect(net, envelope);
        StillKept(net, net');
      } else {
        var net1 := net.(holds := net.holds - multiset{envelope});
        StillKept(net, net1);
        StoreKeeps(net1, envelope.to, envelope.entry, HoldEntryAspectAddress(envelope.entry));
      }
    case PeerRequest(at, request, now) =>
      PeerEffect(net, at, request, now);
      StillKept(net, net');
    case Pass(at, now) =>
      StillKept(net, net');
  }

  lemma StoreDeep(net: Net, at: Uri, entry: EntryData, request: Request, address: EntryHash)
    requires Deep(net, address) && at in net.nodes && (entry.address == address ==> !Shallow(entry))
    requires request == BroadcastEntry(entry) || (request == HoldEntryAspectAddress(entry) && !Shallow(entry))
    ensures Deep(Serve(net, at, request, 0), address)
  {
    hide Serve;
    hide Shallow;
    StoreEffect(net, at, entry, request);
  }

  lemma SameDeep(net: Net, net': Net, address: EntryHash)
    requires Deep(net, address) && forall name :: (name, address) in net'.requested ==> (name, address) in net.requested
    requires forall envelope :: envelope in net'.gossip ==> envelope in net.gossip
    requires forall envelope :: envelope in net'.holds ==> envelope in net.gossip || envelope in net.holds
    ensures Deep(net', address)
  {
    hide FullFor;
  }

  lemma StepDeep(net: Net, step: Step, address: EntryHash)
    requires Deep(net, address) && Enabled(net, step) && (Broadcasts(step, address) ==> !Shallow(step.entry))
    ensures Deep(Apply(net, step), address)
  {
    hide Serve;
    hide Handle;
    hide Shallow;
    hide Deep;
    match step
    case Broadcast(at, entry) =>
      var net1 := net.(published := net.published + Pairs(entry));
      SameDeep(net, net1, address);
      StoreDeep(net1, at, entry, BroadcastEntry(entry), address);
    case DeliverGossip(envelope) =>
      GossipEffect(net, envelope);
      SameDeep(net, Apply(net, step), address);
    case DeliverHold(envelope) =>
      HoldDeep(net, envelope, address);
    case PeerRequest(at, request, now) =>
      PeerEffect(net, at, request, now);
      SameDeep(net, Apply(net, step), address);
    case Pass(at, now) =>
      SameDeep(net, Apply(net, step), address);
  }

  lemma HoldDeep(net: Net, envelope: Envelope, address: EntryHash)
    requires Deep(net, address) && envelope in net.holds && envelope.to in net.nodes
    ensures Deep(Apply(net, DeliverHold(envelope)), address)
  {
    hide Serve;
    hide Shallow;
    assert FullFor(envelope, address);
    var net1 := net.(holds := net.holds - multiset{envelope});
    if Shallow(envelope.entry) {
      ShallowEffect(net, envelope);
      SameDeep(net, Apply(net, DeliverHold(envelope)), address);
    } else {
      SameDeep(net, net1, address);
      StoreDeep(net1, envelope.to, envelope.entry, HoldEntryAspectAddress(envelope.entry), address);
    }
  }

  lemma StillKept(net: Net, net': Net)
    requires Kept(net) && net'.published <= net.published
    requires forall name :: name in net.nodes ==>
               name in net'.nodes && forall address :: Held(net.nodes[name], address) <= Held(net'.nodes[name], address)
    ensures Kept(net')
  {
    forall pair | pair in net'.published ensures exists name :: Holds(net', name, pair.0, pair.1) {
      var name :| Holds(net, name, pair.0, pair.1);
      assert Holds(net', name, pair.0, pair.1);
    }
  }

  lemma {:induction false} RunKeepsInvariants(net: Net, steps: seq<Step>, address: EntryHash)
    requires ValidRun(net, steps) && TimelyRun(net, steps)
    requires Spreading(net) && Sourced(net) && Kept(net)
    ensures var net' := Run(net, steps);
            Spreading(net') && Sourced(net') && Kept(net') && net'.nodes.Keys == net.nodes.Keys &&
            net'.published == net.published + PublishedBy(steps) &&
            (Deep(net, address) && NoShallowBroadcast(steps, address) ==> Deep(net', address))
    decreases |steps|
  {
    hide Apply;
    if steps != [] {
      StepSpreads(net, steps[0]);
      StepSourced(net, steps[0]);
      StepKeeps(net, steps[0]);
      if Deep(net, address) && (Broadcasts(steps[0], address) ==> !Shallow(steps[0].entry)) {
        StepDeep(net, steps[0], address);
      }
      RunKeepsInvariants(Apply(net, steps[0]), steps[1..], address);
      if Deep(net, address) && NoShallowBroadcast(steps, address) {
        assert !Broadcasts(steps[0], address) || !Shallow(steps[0].entry);
        assert NoShallowBroadcast(steps[1..], address);
      }
    }
  }

  ghost predicate IsPath(net: Net, path: seq<Uri>) {
    path != [] && path[0] in net.nodes && forall i :: 0 <= i < |path| - 1 ==> Knows(net, path[i], path[i + 1])
  }

  ghost predicate StronglyConnected(net: Net) {
    forall name, peer :: name in net.nodes && peer in net.nodes ==>
      exists path :: IsPath(net, path) && path[0] == name && path[|path| - 1] == peer
  }

  lemma {:induction false} HoldsAlongPath(net: Net, path: seq<Uri>, address: EntryHash, aspect: AspectHash)
    requires Spreading(net) && Quiescent(net) && Deep(net, address) && IsPath(net, path)
    requires Holds(net, path[0], address, aspect)
    ensures Holds(net, path[|path| - 1], address, aspect)
    decreases |path|
  {
    if |path| > 1 {
      assert Knows(net, path[0], path[1]);
      assert Covered(net, path[1], address, aspect);
      forall i | 0 <= i < |path[1..]| - 1 ensures Knows(net, path[1..][i], path[1..][i + 1]) {
        assert Knows(net, path[i + 1], path[i + 2]);
      }
      HoldsAlongPath(net, path[1..], address, aspect);
    }
  }

  /** In every run that learns peers in time, whatever was broadcast: once nothing is in flight, a
      node that knows a peer holds nothing that the peer does not hold or has not asked its owner
      for. */
  lemma SettledEdgesAgree(net: Net, steps: seq<Step>, name: Uri, peer: Uri, address: EntryHash)
    requires Initial(net) && ValidRun(net, steps) && TimelyRun(net, steps)
    requires Quiescent(Run(net, steps)) && Knows(Run(net, steps), name, peer)
    ensures var net' := Run(net, steps);
            (peer, address) in net'.requested || Held(net'.nodes[name], address) <= Held(net'.nodes[peer], address)
  {
    hide Apply;
    RunKeepsInvariants(net, steps, address);
    var net' := Run(net, steps);
    if (peer, address) !in net'.requested {
      forall aspect | aspect in Held(net'.nodes[name], address) ensures aspect in Held(net'.nodes[peer], address) {
        assert Holds(net', name, address, aspect);
        assert Covered(net', peer, address, aspect);
      }
    }
  }

  lemma SomeHolder(net: Net, pair: (EntryHash, AspectHash)) returns (name: Uri)
    requires Kept(net) && pair in net.published
    ensures Holds(net, name, pair.0, pair.1)
  {
    name :| Holds(net, name, pair.0, pair.1);
  }

  /** If owners broadcast an entry only in full, peers are learned in time and the peer graph is strongly
      connected, then once nothing is in flight every node holds exactly the aspects of it that were ever
      broadcast anywhere. Other entries may be broadcast in any way. */
  lemma TimelyConvergence(net: Net, steps: seq<Step>, name: Uri, address: EntryHash, aspect: AspectHash)
    requires Initial(net) && ValidRun(net, steps) && TimelyRun(net, steps)
    requires NoShallowBroadcast(steps, address)
    requires Quiescent(Run(net, steps)) && StronglyConnected(Run(net, steps))
    requires name in net.nodes
    ensures Holds(Run(net, steps), name, address, aspect) <==> (address, aspect) in PublishedBy(steps)
  {
    hide Apply;
    RunKeepsInvariants(net, steps, address);
    var net' := Run(net, steps);
    if (address, aspect) in PublishedBy(steps) {
      var owner := SomeHolder(net', (address, aspect));
      var path :| IsPath(net', path) && path[0] == owner && path[|path| - 1] == name;
      HoldsAlongPath(net', path, address, aspect);
    }
  }

  // ----- Tables fixed before the first broadcast -----

  /** Read off the steps alone: once an owner has broadcast, a node is only told again of peers it was
      told of before. `known` says who was told of whom, `started` whether an owner has broadcast. */
  predicate FixedTables(known: set<(Uri, Uri)>, started: bool, steps: seq<Step>)
    decreases |steps|
  {
    steps == [] ||
    match steps[0]
    case Broadcast(_, _) => FixedTables(known, true, steps[1..])
    case PeerRequest(at, HoldPeer(peer), _) =>
      (started ==> (at, peer.name) in known) && FixedTables(known + {(at, peer.name)}, started, steps[1..])
    case _ => FixedTables(known, started, steps[1..])
  }

  /** Who is in whose table to begin with. */
  ghost function Introduced(net: Net): set<(Uri, Uri)> {
    set at, name | at in net.nodes && name in net.nodes[at].peers :: (at, name)
  }

  /** Only HoldPeer makes a peer known, and then the peer it names. */
  lemma OnlyHoldPeerTeaches(net: Net, step: Step)
    requires Enabled(net, step)
    ensures Learned(net, step) <= if step.PeerRequest? && step.request.HoldPeer? then {step.request.peer.name} else {}
  {
  }

  ghost predicate Unstarted(net: Net) {
    Quiescent(net) && forall name :: name in net.nodes ==> net.nodes[name].entries == map[]
  }

  ghost predicate Fits(net: Net, known: set<(Uri, Uri)>, started: bool) {
    known <= Introduced(net) && (started || Unstarted(net))
  }

  lemma HandleKeepsTable(node: Node, request: Request, now: u64)
    ensures node.peers.Keys <= Handle(node, request, now).node.peers.Keys
    ensures request.HoldPeer? ==> request.peer.name in Handle(node, request, now).node.peers
  {
  }

  lemma StepKeepsTables(net: Net, step: Step)
    requires Enabled(net, step)
    ensures Introduced(net) <= Introduced(Apply(net, step))
    ensures step.PeerRequest? && step.request.HoldPeer? ==>
              (step.at, step.request.peer.name) in Introduced(Apply(net, step))
  {
    hide Serve;
    hide Handle;
    match step
    case Broadcast(at, entry) =>
      StoreEffect(net.(published := net.published + Pairs(entry)), at, entry, BroadcastEntry(entry));
    case DeliverGossip(envelope) =>
      GossipEffect(net, envelope);
    case DeliverHold(envelope) =>
      if Shallow(envelope.entry) {
        ShallowEffect(net, envelope);
      } else {
        var net1 := net.(holds := net.holds - multiset{envelope});
        StoreEffect(net1, envelope.to, envelope.entry, HoldEntryAspectAddress(envelope.entry));
      }
    case PeerRequest(at, request, now) =>
      PeerEffect(net, at, request, now);
      HandleKeepsTable(net.nodes[at], request, now);
    case Pass(at, now) =>
  }

  lemma QuietStep(net: Net, step: Step)
    requires Enabled(net, step) && Unstarted(net) && !step.Broadcast?
    ensures Unstarted(Apply(net, step))
  {
    hide Serve;
    hide Handle;
    if step.PeerRequest? {
      PeerEffect(net, step.at, step.request, step.now);
    }
  }

  /** Tables fixed before the first broadcast make every step timely. */
  lemma {:induction false} FixedIsTimely(net: Net, steps: seq<Step>, known: set<(Uri, Uri)>, started: bool)
    requires ValidRun(net, steps) && FixedTables(known, started, steps) && Fits(net, known, started)
    ensures TimelyRun(net, steps)
    decreases |steps|
  {
    hide Apply;
    hide Timely;
    hide Learned;
    if steps != [] {
      var step := steps[0];
      OnlyHoldPeerTeaches(net, step);
      FixedStepIsTimely(net, step, known, started);
      StepKeepsTables(net, step);
      if !started && !step.Broadcast? {
        QuietStep(net, step);
      }
      var told := if step.PeerRequest? && step.request.HoldPeer? then {(step.at, step.request.peer.name)} else {};
      assert known + {} == known;
      FixedIsTimely(Apply(net, step), steps[1..], known + told, started || step.Broadcast?);
    }
  }

  lemma FixedStepIsTimely(net: Net, step: Step, known: set<(Uri, Uri)>, started: bool)
    requires Enabled(net, step) && Fits(net, known, started)
    requires started && step.PeerRequest? && step.request.HoldPeer? ==> (step.at, step.request.peer.name) in known
    ensures Timely(net, step)
  {
    hide Timely;
    OnlyHoldPeerTeaches(net, step);
    EarlyIsTimely(net, step);
  }

  /** Convergence: if owners broadcast an entry only in full, peer tables are fixed before the first
      broadcast and the peer graph is strongly connected, then once nothing is in flight every node holds
      exactly the aspects of it that were ever broadcast anywhere. Other entries may be broadcast in any
      way. */
  lemma Convergence(net: Net, steps: seq<Step>, name: Uri, address: EntryHash, aspect: AspectHash)
    requires Initial(net) && ValidRun(net, steps) && FixedTables(Introduced(net), false, steps)
    requires NoShallowBroadcast(steps, address)
    requires Quiescent(Run(net, steps)) && StronglyConnected(Run(net, steps))
    requires name in net.nodes
    ensures Holds(Run(net, steps), name, address, aspect) <==> (address, aspect) in PublishedBy(steps)
  {
    hide Apply;
    hide StronglyConnected;
    FixedIsTimely(net, steps, Introduced(net), false);
    TimelyConvergence(net, steps, name, address, aspect);
  }

  // ----- Shallow broadcasts -----

  /** Who broadcast what. */
  ghost function OwnedBy(steps: seq<Step>): set<(Uri, (EntryHash, AspectHash))>
    decreases |steps|
  {
    if steps == [] then {} else Owned(steps[0]) + OwnedBy(steps[1..])
  }

  ghost function Owned(step: Step): set<(Uri, (EntryHash, AspectHash))> {
    if step.Broadcast? then set pair | pair in Pairs(step.entry) :: (step.at, pair) else {}
  }

  predicate AllShallow(steps: seq<Step>, address: EntryHash) {
    forall i :: 0 <= i < |steps| && Broadcasts(steps[i], address) ==> Shallow(steps[i].entry)
  }

  predicate ShallowFor(envelope: Envelope, address: EntryHash) {
    envelope.entry.address == address ==> Shallow(envelope.entry)
  }

  /** Of this address nodes hold what `owned` says, and only shallow entries are in flight. */
  ghost predicate Confined(net: Net, address: EntryHash, owned: set<(Uri, (EntryHash, AspectHash))>) {
    (forall name, aspect :: Holds(net, name, address, aspect) <==> (name, (address, aspect)) in owned) &&
    (forall envelope :: envelope in net.gossip ==> ShallowFor(envelope, address)) &&
    (forall envelope :: envelope in net.holds ==> ShallowFor(envelope, address))
  }

  lemma StoreConfined(
    net: Net, at: Uri, entry: EntryData, request: Request, address: EntryHash,
    owned: set<(Uri, (EntryHash, AspectHash))>, more: set<(Uri, (EntryHash, AspectHash))>)
    requires Confined(net, address, owned) && at in net.nodes
    requires request == BroadcastEntry(entry) || (request == HoldEntryAspectAddress(entry) && !Shallow(entry))
    requires entry.address == address ==> Shallow(entry) && more == Owned(Broadcast(at, entry))
    requires entry.address != address ==> forall name, aspect :: (name, (address, aspect)) !in more
    ensures Confined(Serve(net, at, request, 0), address, owned + more)
  {
    hide Serve;
    hide Shallow;
    hide Holds;
    hide Owned;
    var net' := Serve(net, at, request, 0);
    forall name, aspect ensures Holds(net', name, address, aspect) <==> (name, (address, aspect)) in owned + more {
      StoredHolds(net, at, entry, request, name, address, aspect);
      OwnedPairs(Broadcast(at, entry), name, address, aspect);
    }
    StoreEffect(net, at, entry, request);
  }

  lemma StoredHolds(
    net: Net, at: Uri, entry: EntryData, request: Request, name: Uri, address: EntryHash, aspect: AspectHash)
    requires at in net.nodes
    requires request == BroadcastEntry(entry) || (request == HoldEntryAspectAddress(entry) && !Shallow(entry))
    ensures Holds(Serve(net, at, request, 0), name, address, aspect) <==>
            Holds(net, name, address, aspect) || (name == at && address == entry.address && aspect in AspectSet(entry))
  {
    hide Serve;
    hide Shallow;
    StoreEffect(net, at, entry, request);
    StoredAspects(net.nodes[at], entry, address);
  }

  lemma OwnedPairs(step: Step, name: Uri, address: EntryHash, aspect: AspectHash)
    ensures (name, (address, aspect)) in Owned(step) <==>
            step.Broadcast? && name == step.at && address == step.entry.address && aspect in AspectSet(step.entry)
  {
    if step.Broadcast? && aspect in AspectSet(step.entry) {
      assert (step.entry.address, aspect) in Pairs(step.entry);
    }
  }

  lemma SameConfined(net: Net, net': Net, address: EntryHash, owned: set<(Uri, (EntryHash, AspectHash))>)
    requires Confined(net, address, owned) && net.nodes.Keys == net'.nodes.Keys
    requires forall name :: name in net.nodes ==> net'.nodes[name].entries == net.nodes[name].entries
    requires forall envelope :: envelope in net'.gossip ==> envelope in net.gossip
    requires forall envelope :: envelope in net'.holds ==> envelope in net.gossip || envelope in net.holds
    ensures Confined(net', address, owned)
  {
    hide ShallowFor;
    forall name, aspect ensures Holds(net', name, address, aspect) <==> Holds(net, name, address, aspect) {
    }
  }

  lemma StepConfined(net: Net, step: Step, address: EntryHash, owned: set<(Uri, (EntryHash, AspectHash))>)
    requires Confined(net, address, owned) && Enabled(net, step) && (Broadcasts(step, address) ==> Shallow(step.entry))
    ensures Confined(Apply(net, step), address, owned + Owned(step))
  {
    hide Serve;
    hide Handle;
    hide Shallow;
    hide Holds;
    if step.Broadcast? {
      var net1 := net.(published := net.published + Pairs(step.entry));
      SameConfined(net, net1, address, owned);
      StoreConfined(net1, step.at, step.entry, BroadcastEntry(step.entry), address, owned, Owned(step));
    } else {
      assert owned + {} == owned;
      match step {
        case DeliverGossip(envelope) => GossipEffect(net, envelope);
        case DeliverHold(envelope) => HoldConfined(net, envelope, address, owned);
        case PeerRequest(at, request, now) => PeerEffect(net, at, request, now);
        case _ =>
      }
      if !step.DeliverHold? {
        SameConfined(net, Apply(net, step), address, owned);
      }
    }
  }

  lemma HoldConfined(net: Net, envelope: Envelope, address: EntryHash, owned: set<(Uri, (EntryHash, AspectHash))>)
    requires Confined(net, address, owned) && envelope in net.holds && envelope.to in net.nodes
    ensures Confined(Apply(net, DeliverHold(envelope)), address, owned)
  {
    hide Serve;
    hide Shallow;
    var net1 := net.(holds := net.holds - multiset{envelope});
    if Shallow(envelope.entry) {
      ShallowEffect(net, envelope);
      SameConfined(net, Apply(net, DeliverHold(envelope)), address, owned);
    } else {
      assert ShallowFor(envelope, address);
      SameConfined(net, net1, address, owned);
      StoreConfined(net1, envelope.to, envelope.entry, HoldEntryAspectAddress(envelope.entry), address, owned, {});
      assert owned + {} == owned;
    }
  }

  lemma {:induction false} RunConfined(
    net: Net, steps: seq<Step>, address: EntryHash, owned: set<(Uri, (EntryHash, AspectHash))>)
    requires Confined(net, address, owned) && ValidRun(net, steps) && AllShallow(steps, address)
    ensures Confined(Run(net, steps), address, owned + OwnedBy(steps))
    decreases |steps|
  {
    hide Apply;
    hide Confined;
    hide Shallow;
    if steps == [] {
      assert owned + OwnedBy(steps) == owned;
    } else {
      StepConfined(net, steps[0], address, owned);
      RunConfined(Apply(net, steps[0]), steps[1..], address, owned + Owned(steps[0]));
      assert owned + Owned(steps[0]) + OwnedBy(steps[1..]) == owned + OwnedBy(steps);
    }
  }

  /** If an entry is only ever broadcast as a shallow one, it does not spread at all: in every run each
      node holds exactly what its own owner broadcast of it. */
  lemma ShallowStaysHome(net: Net, steps: seq<Step>, name: Uri, address: EntryHash, aspect: AspectHash)
    requires Initial(net) && ValidRun(net, steps) && AllShallow(steps, address)
    ensures Holds(Run(net, steps), name, address, aspect) <==> (name, (address, aspect)) in OwnedBy(steps)
  {
    hide Apply;
    hide Shallow;
    assert Confined(net, address, {});
    RunConfined(net, steps, address, {});
    assert {} + OwnedBy(steps) == OwnedBy(steps);
  }

  /** The run broadcasts the entry at step `k`, and its address at no other. */
  predicate OneBroadcast(steps: seq<Step>, k: nat, at: Uri, entry: EntryData) {
    k < |steps| && steps[k] == Broadcast(at, entry) &&
    forall i :: 0 <= i < |steps| && i != k ==> !Broadcasts(steps[i], entry.address)
  }

  lemma {:induction false} NoBroadcasts(steps: seq<Step>, address: EntryHash)
    requires forall i :: 0 <= i < |steps| ==> !Broadcasts(steps[i], address)
    ensures forall aspect :: (address, aspect) !in PublishedBy(steps)
    ensures forall name, aspect :: (name, (address, aspect)) !in OwnedBy(steps)
    decreases |steps|
  {
    if steps != [] {
      NoBroadcasts(steps[1..], address);
    }
  }

  lemma {:induction false} OnlyOneBroadcast(steps: seq<Step>, k: nat, at: Uri, entry: EntryData, aspect: AspectHash)
    requires OneBroadcast(steps, k, at, entry)
    ensures (entry.address, aspect) in PublishedBy(steps) <==> aspect in AspectSet(entry)
    ensures forall name ::
              (name, (entry.address, aspect)) in OwnedBy(steps) <==> name == at && aspect in AspectSet(entry)
    decreases |steps|
  {
    if k == 0 {
      NoBroadcasts(steps[1..], entry.address);
    } else {
      assert !Broadcasts(steps[0], entry.address);
      OnlyOneBroadcast(steps[1..], k - 1, at, entry, aspect);
    }
  }

  /** An entry broadcast once over fixed, strongly connected tables, whatever else is broadcast, reaches
      every node if and only if it is not shallow. */
  lemma BroadcastReachesAll(net: Net, steps: seq<Step>, k: nat, at: Uri, entry: EntryData)
    requires Initial(net) && ValidRun(net, steps) && FixedTables(Introduced(net), false, steps)
    requires OneBroadcast(steps, k, at, entry) && |net.nodes| >= 2
    requires Quiescent(Run(net, steps)) && StronglyConnected(Run(net, steps))
    ensures (forall name, aspect :: name in net.nodes && aspect in AspectSet(entry) ==>
              Holds(Run(net, steps), name, entry.address, aspect)) <==> !Shallow(entry)
  {
    hide Apply;
    hide StronglyConnected;
    hide FixedTables;
    if Shallow(entry) {
      var aspect := entry.aspects[0].address;
      var other := OtherNode(net, at);
      OnlyOneBroadcast(steps, k, at, entry, aspect);
      ShallowStaysHome(net, steps, other, entry.address, aspect);
      assert entry.aspects[0] in entry.aspects && aspect in AspectSet(entry);
    } else {
      forall name, aspect | name in net.nodes && aspect in AspectSet(entry)
        ensures Holds(Run(net, steps), name, entry.address, aspect)
      {
        OnlyOneBroadcast(steps, k, at, entry, aspect);
        Convergence(net, steps, name, entry.address, aspect);
      }
    }
  }

  lemma OtherNode(net: Net, at: Uri) returns (other: Uri)
    requires |net.nodes| >= 2
    ensures other in net.nodes && other != at
  {
    if net.nodes.Keys <= {at} {
      SubsetSize(net.nodes.Keys, {at});
    }
    other :| other in net.nodes && other != at;
  }

  // ----- Both conditions are needed -----

  /** A peer learned after the broadcast is never told. */
  lemma LatePeerMissesEntry(net: Net, name: Uri, peer: PeerData, entry: EntryData, now: u64)
    requires Initial(net) && name in net.nodes && peer.name in net.nodes && peer.name != name
    requires net.nodes[name].thisPeer.name == name && net.nodes[name].peers == map[]
    requires entry.aspects != []
    ensures var steps := [Broadcast(name, entry), PeerRequest(name, HoldPeer(peer), now)];
            ValidRun(net, steps) && Quiescent(Run(net, steps)) && Knows(Run(net, steps), name, peer.name) &&
            Holds(Run(net, steps), name, entry.address, entry.aspects[0].address) &&
            !Holds(Run(net, steps), peer.name, entry.address, entry.aspects[0].address)
  {
    var first, second := Broadcast(name, entry), PeerRequest(name, HoldPeer(peer), now);
    LonelyBroadcast(net, name, entry);
    var net1 := Apply(net, first);
    PeerEffect(net1, name, HoldPeer(peer), now);
    RunTwo(net, first, second);
    StoredAspects(net.nodes[name], entry, entry.address);
    assert Aspect(entry.aspects[0].address, entry.aspects[0].len) in entry.aspects;
  }

  lemma LonelyBroadcast(net: Net, name: Uri, entry: EntryData)
    requires Initial(net) && name in net.nodes && net.nodes[name].peers == map[]
    requires entry.aspects != []
    ensures Apply(net, Broadcast(name, entry)) ==
              net.(published := Pairs(entry), nodes := net.nodes[name := AddEntryAspects(net.nodes[name], entry)])
  {
    hide Serve;
    var net0 := net.(published := net.published + Pairs(entry));
    assert net0.published == Pairs(entry);
    StoreEffect(net0, name, entry, BroadcastEntry(entry));
    assert entry.aspects[0].address in DiffAspects(net.nodes[name], entry);
    assert OtherPeers(net.nodes[name]) * net.nodes.Keys == {};
    assert Envelopes({}, entry) == {};
  }

  lemma RunTwo(net: Net, first: Step, second: Step)
    requires Enabled(net, first) && Enabled(Apply(net, first), second)
    ensures ValidRun(net, [first, second]) && Run(net, [first, second]) == Apply(Apply(net, first), second)
  {
    hide Apply;
    assert [first, second][1..] == [second] && [second][1..] == [];
    assert ValidRun(Apply(net, first), [second]);
    assert Run(Apply(net, first), [second]) == Apply(Apply(net, first), second);
  }

  /** A shallow broadcast stops at the first hop: the receiver asks its owner and stores nothing. */
  lemma ShallowBroadcastStops(net: Net, name: Uri, peer: Uri, entry: EntryData)
    requires Initial(net) && name in net.nodes && peer in net.nodes && peer != name
    requires OtherPeers(net.nodes[name]) == {peer} && Shallow(entry)
    ensures var envelope := Envelope(peer, entry);
            var steps := [Broadcast(name, entry), DeliverGossip(envelope), DeliverHold(envelope)];
            ValidRun(net, steps) && Quiescent(Run(net, steps)) && (peer, entry.address) in Run(net, steps).requested &&
            Holds(Run(net, steps), name, entry.address, entry.aspects[0].address) &&
            !Holds(Run(net, steps), peer, entry.address, entry.aspects[0].address)
  {
    hide Serve;
    hide Pairs;
    var envelope := Envelope(peer, entry);
    var s0, s1, s2 := Broadcast(name, entry), DeliverGossip(envelope), DeliverHold(envelope);
    FirstHop(net, name, peer, entry);
    var net1 := Apply(net, s0);
    GossipEffect(net1, envelope);
    var net2 := Apply(net1, s1);
    ShallowEffect(net2, envelope);
    RunThree(net, s0, s1, s2);
  }

  lemma FirstHop(net: Net, name: Uri, peer: Uri, entry: EntryData)
    requires Initial(net) && name in net.nodes && peer in net.nodes && peer != name
    requires OtherPeers(net.nodes[name]) == {peer} && Shallow(entry)
    ensures var net', aspect := Apply(net, Broadcast(name, entry)), entry.aspects[0].address;
            net'.gossip == multiset{Envelope(peer, entry)} && net'.holds == multiset{} &&
            net'.nodes == net.nodes[name := AddEntryAspects(net.nodes[name], entry)] &&
            aspect in DiffAspects(net'.nodes[peer], entry) &&
            Holds(net', name, entry.address, aspect) && !Holds(net', peer, entry.address, aspect)
  {
    hide Serve;
    var net0 := net.(published := net.published + Pairs(entry));
    StoreEffect(net0, name, entry, BroadcastEntry(entry));
    StoredAspects(net.nodes[name], entry, entry.address);
    assert entry.aspects[0].address in DiffAspects(net.nodes[name], entry);
    assert OtherPeers(net.nodes[name]) * net.nodes.Keys == {peer};
    assert Envelopes({peer}, entry) == {Envelope(peer, entry)};
  }

  lemma RunThree(net: Net, first: Step, second: Step, third: Step)
    requires Enabled(net, first) && Enabled(Apply(net, first), second)
    requires Enabled(Apply(Apply(net, first), second), third)
    ensures ValidRun(net, [first, second, third])
    ensures Run(net, [first, second, third]) == Apply(Apply(Apply(net, first), second), third)
  {
    hide Apply;
    assert [first, second, third][1..] == [second, third];
    RunTwo(Apply(net, first), second, third);
  }
}
