/** A network of MirrorDht nodes. Any node may at any time receive a broadcast from its owner, any
    peer request, or a processing pass; entry gossip and the hold requests it leads to are delivered
    reliably, one at a time, in any order. Owners accept every hold request. */
module GossipNetwork {
  import opened MirrorDht
  import opened Wrappers

  datatype Envelope = Envelope(to: Uri, entry: EntryData)

  /** `requested` remembers who asked its owner for the content of a shallow entry; `published`
      remembers every aspect an owner ever broadcast. */
  datatype Net = Net(
    nodes: map<Uri, Node>,
    gossip: multiset<Envelope>,
    holds: multiset<Envelope>,
    requested: set<(Uri, EntryHash)>,
    published: set<(EntryHash, AspectHash)>)

  datatype Step =
    | Broadcast(at: Uri, entry: EntryData)
    | DeliverGossip(envelope: Envelope)
    | DeliverHold(envelope: Envelope)
    | PeerRequest(at: Uri, request: Request, now: u64)
    | Pass(at: Uri, now: u64)

  predicate EntryFree(request: Request) {
    match request
    case HandleGossip(Some(EntryGossip(_))) => false
    case HoldEntryAspectAddress(_) => false
    case BroadcastEntry(_) => false
    case _ => true
  }

  ghost predicate Enabled(net: Net, step: Step) {
    match step
    case Broadcast(at, _) => at in net.nodes
    case DeliverGossip(envelope) => envelope in net.gossip && envelope.to in net.nodes
    case DeliverHold(envelope) => envelope in net.holds && envelope.to in net.nodes
    case PeerRequest(at, request, _) => at in net.nodes && EntryFree(request)
    case Pass(at, _) => at in net.nodes && net.nodes[at].peers.Keys == net.nodes[at].timedOut.Keys
  }

  predicate Internal(step: Step) {
    step.DeliverGossip? || step.DeliverHold?
  }

  ghost function Envelopes(to: set<Uri>, entry: EntryData): set<Envelope> {
    set name | name in to :: Envelope(name, entry)
  }

  /** Carry one published command: gossip goes to every listed node of the network, a hold request
      comes straight back as an accepted hold. Peer traffic is not tracked here: peer requests may
      arrive at any time anyway. */
  ghost function Carry(net: Net, from: Uri, command: Command): Net {
    match command
    case GossipTo(peers, EntryGossip(entry)) =>
      net.(gossip := net.gossip + multiset(Envelopes(peers * net.nodes.Keys, entry)))
    case HoldEntryRequested(_, entry) => net.(holds := net.holds + multiset{Envelope(from, entry)})
    case RequestEntry(address) => net.(requested := net.requested + {(from, address)})
    case _ => net
  }

  ghost function CarryAll(net: Net, from: Uri, commands: seq<Command>): Net
    decreases |commands|
  {
    if commands == [] then net else CarryAll(Carry(net, from, commands[0]), from, commands[1..])
  }

  ghost function Serve(net: Net, at: Uri, request: Request, now: u64): Net
    requires at in net.nodes
  {
    var reply := Handle(net.nodes[at], request, now);
    CarryAll(net.(nodes := net.nodes[at := reply.node]), at, reply.commands)
  }

  ghost function Pairs(entry: EntryData): set<(EntryHash, AspectHash)> {
    set aspect | aspect in AspectSet(entry) :: (entry.address, aspect)
  }

  ghost function Apply(net: Net, step: Step): Net
    requires Enabled(net, step)
  {
    match step
    case Broadcast(at, entry) => Serve(net.(published := net.published + Pairs(entry)), at, BroadcastEntry(entry), 0)
    case DeliverGossip(envelope) =>
      Serve(net.(gossip := net.gossip - multiset{envelope}), envelope.to,
            HandleGossip(Some(EntryGossip(envelope.entry))), 0)
    case DeliverHold(envelope) =>
      Serve(net.(holds := net.holds - multiset{envelope}), envelope.to, HoldEntryAspectAddress(envelope.entry), 0)
    case PeerRequest(at, request, now) => Serve(net, at, request, now)
    case Pass(at, now) => net.(nodes := net.nodes[at := Process(net.nodes[at], now)])
  }

  ghost predicate ValidRun(net: Net, steps: seq<Step>)
    decreases |steps|
  {
    steps == [] || (Enabled(net, steps[0]) && ValidRun(Apply(net, steps[0]), steps[1..]))
  }

  ghost function Run(net: Net, steps: seq<Step>): Net
    requires ValidRun(net, steps)
    decreases |steps|
  {
    if steps == [] then net else Run(Apply(net, steps[0]), steps[1..])
  }

  lemma CarryOne(net: Net, from: Uri, command: Command)
    ensures CarryAll(net, from, [command]) == Carry(net, from, command)
  {
    assert [command][1..] == [];
  }

  // ----- What a step does to what nodes hold and what is on its way -----

  ghost predicate Holds(net: Net, name: Uri, address: EntryHash, aspect: AspectHash) {
    name in net.nodes && aspect in Held(net.nodes[name], address)
  }

  ghost predicate Knows(net: Net, name: Uri, peer: Uri) {
    name in net.nodes && peer in net.nodes && peer in OtherPeers(net.nodes[name])
  }

  predicate Carries(envelope: Envelope, to: Uri, address: EntryHash, aspect: AspectHash) {
    envelope.to == to && envelope.entry.address == address && aspect in AspectSet(envelope.entry)
  }

  ghost predicate OnItsWay(net: Net, to: Uri, address: EntryHash, aspect: AspectHash) {
    (exists envelope :: envelope in net.gossip && Carries(envelope, to, address, aspect)) ||
    (exists envelope :: envelope in net.holds && Carries(envelope, to, address, aspect))
  }

  ghost predicate Covered(net: Net, to: Uri, address: EntryHash, aspect: AspectHash) {
    Holds(net, to, address, aspect) || OnItsWay(net, to, address, aspect) || (to, address) in net.requested
  }

  /** Closed-form effect of storing an entry at a node. */
  lemma StoreEffect(net: Net, at: Uri, entry: EntryData, request: Request)
    requires at in net.nodes
    requires request == BroadcastEntry(entry) || (request == HoldEntryAspectAddress(entry) && !Shallow(entry))
    ensures Serve(net, at, request, 0) ==
              if DiffAspects(net.nodes[at], entry) == {} then net
              else net.(nodes := net.nodes[at := AddEntryAspects(net.nodes[at], entry)],
                        gossip := net.gossip + multiset(Envelopes(OtherPeers(net.nodes[at]) * net.nodes.Keys, entry)))
  {
    var reply := Handle(net.nodes[at], request, 0);
    assert net.nodes[at := net.nodes[at]] == net.nodes;
    if reply.commands != [] {
      CarryOne(net.(nodes := net.nodes[at := reply.node]), at, reply.commands[0]);
    }
  }

  lemma GossipEffect(net: Net, envelope: Envelope)
    requires envelope.to in net.nodes && envelope in net.gossip
    ensures Apply(net, DeliverGossip(envelope)) ==
              net.(gossip := net.gossip - multiset{envelope},
                   holds := if DiffAspects(net.nodes[envelope.to], envelope.entry) == {} then net.holds
                            else net.holds + multiset{envelope})
  {
    var reply := Handle(net.nodes[envelope.to], HandleGossip(Some(EntryGossip(envelope.entry))), 0);
    assert net.nodes[envelope.to := net.nodes[envelope.to]] == net.nodes;
    if reply.commands != [] {
      CarryOne(net.(gossip := net.gossip - multiset{envelope}), envelope.to, reply.commands[0]);
    }
  }

  lemma ShallowEffect(net: Net, envelope: Envelope)
    requires envelope.to in net.nodes && envelope in net.holds && Shallow(envelope.entry)
    ensures Apply(net, DeliverHold(envelope)) ==
              net.(holds := net.holds - multiset{envelope},
                   requested := net.requested + {(envelope.to, envelope.entry.address)})
  {
    var reply := Handle(net.nodes[envelope.to], HoldEntryAspectAddress(envelope.entry), 0);
    assert net.nodes[envelope.to := net.nodes[envelope.to]] == net.nodes;
    CarryOne(net.(holds := net.holds - multiset{envelope}), envelope.to, reply.commands[0]);
  }

  lemma PeerEffect(net: Net, at: Uri, request: Request, now: u64)
    requires at in net.nodes && EntryFree(request)
    ensures Serve(net, at, request, now) == net.(nodes := net.nodes[at := Handle(net.nodes[at], request, now).node])
    ensures Handle(net.nodes[at], request, now).node.entries == net.nodes[at].entries
    ensures Handle(net.nodes[at], request, now).node.thisPeer.name == net.nodes[at].thisPeer.name
  {
    var reply := Handle(net.nodes[at], request, now);
    var net' := net.(nodes := net.nodes[at := reply.node]);
    if |reply.commands| == 2 {
      assert reply.commands[1..] == [reply.commands[1]];
      CarryOne(net', at, reply.commands[1]);
    } else if reply.commands != [] {
      CarryOne(net', at, reply.commands[0]);
    }
  }

  // ----- Convergence -----

  /** The peers a step makes known to the node it happens at. */
  ghost function Learned(net: Net, step: Step): set<Uri> {
    if step.PeerRequest? && step.at in net.nodes then
      OtherPeers(Handle(net.nodes[step.at], step.request, step.now).node) - OtherPeers(net.nodes[step.at])
    else {}
  }

  /** Learning a peer is timely if the peer has, or is about to have, whatever the node holds by then:
      the node will not gossip it again. */
  ghost predicate Timely(net: Net, step: Step) {
    forall peer, address, aspect ::
      peer in Learned(net, step) && peer in net.nodes && Holds(net, step.at, address, aspect) ==>
        Covered(net, peer, address, aspect)
  }

  /** Learning peers while holding nothing, or learning none, is always timely. */
  lemma EarlyIsTimely(net: Net, step: Step)
    requires Learned(net, step) == {} ||
             (step.PeerRequest? && step.at in net.nodes && net.nodes[step.at].entries == map[])
    ensures Timely(net, step)
  {
  }

  /** Whatever a node holds, every peer it knows holds too, is about to be told, or has asked for. */
  ghost predicate Spreading(net: Net) {
    forall name, peer, address, aspect ::
      Knows(net, name, peer) && Holds(net, name, address, aspect) ==> Covered(net, peer, address, aspect)
  }

  ghost predicate HeldSourced(net: Net) {
    forall name, address, aspect :: Holds(net, name, address, aspect) ==> (address, aspect) in net.published
  }

  /** `flight` only carries published aspects, to nodes of the network. */
  ghost predicate FlightSourced(net: Net, flight: multiset<Envelope>) {
    forall envelope :: envelope in flight ==> Pairs(envelope.entry) <= net.published && envelope.to in net.nodes
  }

  /** Everything held or on its way was broadcast by some owner. */
  ghost predicate Sourced(net: Net) {
    HeldSourced(net) && FlightSourced(net, net.gossip) && FlightSourced(net, net.holds)
  }

  lemma StoredSpreads(net: Net, at: Uri, entry: EntryData, request: Request)
    requires Spreading(net) && at in net.nodes
    requires request == BroadcastEntry(entry) || (request == HoldEntryAspectAddress(entry) && !Shallow(entry))
    ensures Spreading(Serve(net, at, request, 0))
  {
    StoreEffect(net, at, entry, request);
    var net' := Serve(net, at, request, 0);
    if net' != net {
      forall name, peer, address, aspect | Knows(net', name, peer) && Holds(net', name, address, aspect)
        ensures Covered(net', peer, address, aspect)
      {
        if Holds(net, name, address, aspect) {
          assert Knows(net, name, peer);
          CoveredGrows(net, net', peer, address, aspect);
        } else {
          assert name == at && address == entry.address;
          assert Envelope(peer, entry) in net'.gossip;
        }
      }
    }
  }

  lemma CoveredGrows(net: Net, net': Net, to: Uri, address: EntryHash, aspect: AspectHash)
    requires Covered(net, to, address, aspect)
    requires Holds(net, to, address, aspect) ==> Holds(net', to, address, aspect)
    requires net.gossip <= net'.gossip && net.holds <= net'.holds && net.requested <= net'.requested
    ensures Covered(net', to, address, aspect)
  {
  }

  /** A step keeps everything spreading exactly when the peers it makes known are learned in time. */
  lemma StepSpreads(net: Net, step: Step)
    requires Spreading(net) && Enabled(net, step)
    ensures Spreading(Apply(net, step)) <==> Timely(net, step)
  {
    hide Serve;
    hide Spreading;
    if !step.PeerRequest? {
      EarlyIsTimely(net, step);
    }
    match step
    case Broadcast(at, entry) =>
      var net1 := net.(published := net.published + Pairs(entry));
      assert Spreading(net1) by { SameCover(net, net1); }
      StoredSpreads(net1, at, entry, BroadcastEntry(entry));
    case DeliverGossip(envelope) =>
      GossipEffect(net, envelope);
      StoredAspects(net.nodes[envelope.to], envelope.entry, envelope.entry.address);
      DeliverySpreads(net, Apply(net, step), envelope);
    case DeliverHold(envelope) =>
      if Shallow(envelope.entry) {
        ShallowEffect(net, envelope);
        DeliverySpreads(net, Apply(net, step), envelope);
      } else {
        HoldSpreads(net, envelope);
      }
    case PeerRequest(at, request, now) =>
      PeerSpreads(net, step);
    case Pass(at, now) =>
      SameCover(net, Apply(net, step));
  }

  lemma PeerSpreads(net: Net, step: Step)
    requires Spreading(net) && Enabled(net, step) && step.PeerRequest?
    ensures Spreading(Apply(net, step)) <==> Timely(net, step)
  {
    hide Serve;
    hide Handle;
    PeerEffect(net, step.at, step.request, step.now);
    var net' := Apply(net, step);
    assert forall name, address, aspect :: Holds(net', name, address, aspect) <==> Holds(net, name, address, aspect);
    if Timely(net, step) {
      forall name, peer, address, aspect | Knows(net', name, peer) && Holds(net', name, address, aspect)
        ensures Covered(net', peer, address, aspect)
      {
        assert Knows(net, name, peer) || (name == step.at && peer in Learned(net, step));
        CoveredGrows(net, net', peer, address, aspect);
      }
    }
    if Spreading(net') {
      forall peer, address, aspect |
        peer in Learned(net, step) && peer in net.nodes && Holds(net, step.at, address, aspect)
        ensures Covered(net, peer, address, aspect)
      {
        assert Knows(net', step.at, peer) && Holds(net', step.at, address, aspect);
        CoveredGrows(net', net, peer, address, aspect);
      }
    }
  }

  lemma SameCover(net: Net, net': Net)
    requires Spreading(net)
    requires net.nodes.Keys == net'.nodes.Keys
    requires forall name :: name in net.nodes ==>
               net'.nodes[name].entries == net.nodes[name].entries &&
               OtherPeers(net'.nodes[name]) == OtherPeers(net.nodes[name])
    requires net'.gossip == net.gossip && net'.holds == net.holds && net'.requested == net.requested
    ensures Spreading(net')
  {
    forall name, peer, address, aspect | Knows(net', name, peer) && Holds(net', name, address, aspect)
      ensures Covered(net', peer, address, aspect)
    {
      assert Knows(net, name, peer) && Holds(net, name, address, aspect);
      CoveredGrows(net, net', peer, address, aspect);
    }
  }

  /** Removing a delivered envelope is harmless once its aspects are covered some other way. */
  lemma DeliverySpreads(net: Net, net': Net, envelope: Envelope)
    requires Spreading(net) && net'.nodes == net.nodes
    requires net.gossip - multiset{envelope} <= net'.gossip && net.holds - multiset{envelope} <= net'.holds
    requires net.requested <= net'.requested
    requires forall aspect :: aspect in AspectSet(envelope.entry) ==>
               Covered(net', envelope.to, envelope.entry.address, aspect)
    ensures Spreading(net')
  {
    forall name, peer, address, aspect | Knows(net', name, peer) && Holds(net', name, address, aspect)
      ensures Covered(net', peer, address, aspect)
    {
      assert Knows(net, name, peer) && Holds(net, name, address, aspect);
      CoveredUnless(net, net', envelope, peer, address, aspect);
    }
  }

  lemma CoveredUnless(net: Net, net': Net, gone: Envelope, to: Uri, address: EntryHash, aspect: AspectHash)
    requires Covered(net, to, address, aspect)
    requires Holds(net, to, address, aspect) ==> Holds(net', to, address, aspect)
    requires net.gossip - multiset{gone} <= net'.gossip && net.holds - multiset{gone} <= net'.holds
    requires net.requested <= net'.requested
    ensures Carries(gone, to, address, aspect) || Covered(net', to, address, aspect)
  {
    if envelope :| envelope in net.gossip && Carries(envelope, to, address, aspect) {
      assert envelope == gone || envelope in net'.gossip;
    }
    if envelope :| envelope in net.holds && Carries(envelope, to, address, aspect) {
      assert envelope == gone || envelope in net'.holds;
    }
  }

  lemma HoldSpreads(net: Net, envelope: Envelope)
    requires Spreading(net) && envelope in net.holds && envelope.to in net.nodes && !Shallow(envelope.entry)
    ensures Spreading(Apply(net, DeliverHold(envelope)))
  {
    var at, entry := envelope.to, envelope.entry;
    var net1 := net.(holds := net.holds - multiset{envelope});
    StoreEffect(net1, at, entry, HoldEntryAspectAddress(entry));
    var net' := Apply(net, DeliverHold(envelope));
    StoredAspects(net.nodes[at], entry, entry.address);
    forall name, peer, address, aspect | Knows(net', name, peer) && Holds(net', name, address, aspect)
      ensures Covered(net', peer, address, aspect)
    {
      assert Knows(net, name, peer);
      if Holds(net, name, address, aspect) {
        assert Holds(net, peer, address, aspect) ==> Holds(net', peer, address, aspect);
        CoveredUnless(net, net', envelope, peer, address, aspect);
        assert Carries(envelope, peer, address, aspect) ==> Holds(net', peer, address, aspect);
      } else {
        assert name == at && address == entry.address;
        assert Envelope(peer, entry) in net'.gossip;
      }
    }
  }

  lemma StoreSourced(net: Net, at: Uri, entry: EntryData, request: Request)
    requires Sourced(net) && at in net.nodes && Pairs(entry) <= net.published
    requires request == BroadcastEntry(entry) || (request == HoldEntryAspectAddress(entry) && !Shallow(entry))
    ensures var net' := Serve(net, at, request, 0);
            Sourced(net') && net'.nodes.Keys == net.nodes.Keys && net'.published == net.published
  {
    var net' := Serve(net, at, request, 0);
    StoreEffect(net, at, entry, request);
    forall name, address, aspect | Holds(net', name, address, aspect) ensures (address, aspect) in net'.published {
      if !Holds(net, name, address, aspect) {
        StoredAspects(net.nodes[at], entry, address);
        assert (address, aspect) in Pairs(entry);
      }
    }
  }

  lemma NothingNewSourced(net: Net, net': Net)
    requires Sourced(net) && net'.published == net.published && net.nodes.Keys == net'.nodes.Keys
    requires forall name :: name in net.nodes ==> net'.nodes[name].entries == net.nodes[name].entries
    requires forall envelope :: envelope in net'.gossip ==> envelope in net.gossip
    requires forall envelope :: envelope in net'.holds ==> envelope in net.gossip || envelope in net.holds
    ensures Sourced(net')
  {
    forall name, address, aspect | Holds(net', name, address, aspect) ensures (address, aspect) in net'.published {
      assert Holds(net, name, address, aspect);
    }
  }

  lemma BroadcastSourced(net: Net, at: Uri, entry: EntryData)
    requires Sourced(net) && at in net.nodes
    ensures var net' := Apply(net, Broadcast(at, entry));
            Sourced(net') && net'.nodes.Keys == net.nodes.Keys && net'.published == net.published + Pairs(entry)
  {
    hide Serve;
    var net1 := net.(published := net.published + Pairs(entry));
    assert forall name, address, aspect :: Holds(net1, name, address, aspect) ==> Holds(net, name, address, aspect);
    StoreSourced(net1, at, entry, BroadcastEntry(entry));
  }

  lemma DeliverySourced(net: Net, step: Step)
    requires Sourced(net) && Enabled(net, step) && Internal(step)
    ensures var net' := Apply(net, step);
            Sourced(net') && net'.nodes.Keys == net.nodes.Keys && net'.published == net.published
  {
    hide Serve;
    match step
    case DeliverGossip(envelope) =>
      GossipEffect(net, envelope);
      NothingNewSourced(net, Apply(net, step));
    case DeliverHold(envelope) =>
      if Shallow(envelope.entry) {
        ShallowEffect(net, envelope);
        NothingNewSourced(net, Apply(net, step));
      } else {
        var net1 := net.(holds := net.holds - multiset{envelope});
        NothingNewSourced(net, net1);
        StoreSourced(net1, envelope.to, envelope.entry, HoldEntryAspectAddress(envelope.entry));
      }
  }

  lemma StepSourced(net: Net, step: Step)
    requires Sourced(net) && Enabled(net, step)
    ensures Sourced(Apply(net, step))
    ensures Apply(net, step).nodes.Keys == net.nodes.Keys
    ensures Apply(net, step).published == if step.Broadcast? then net.published + Pairs(step.entry) else net.published
  {
    hide Serve;
    match step
    case Broadcast(at, entry) =>
      BroadcastSourced(net, at, entry);
    case PeerRequest(at, request, now) =>
      PeerEffect(net, at, request, now);
      NothingNewSourced(net, Apply(net, step));
    case Pass(at, now) =>
      NothingNewSourced(net, Apply(net, step));
    case _ =>
      DeliverySourced(net, step);
  }

  // ----- Flood termination -----

  ghost predicate Quiescent(net: Net) {
    net.gossip == multiset{} && net.holds == multiset{}
  }

  /** Which node still lacks which published aspect. */
  ghost function Missing(net: Net): set<(Uri, (EntryHash, AspectHash))> {
    set name, pair | name in net.nodes && pair in net.published && pair.1 !in Held(net.nodes[name], pair.0) ::
      (name, pair)
  }

  ghost function Measure(net: Net): nat {
    2 * |net.nodes| * |Missing(net)| + 2 * |net.gossip| + |net.holds|
  }

  lemma {:induction false} FanoutSize(to: set<Uri>, entry: EntryData)
    ensures |Envelopes(to, entry)| == |to|
  {
    if to == {} {
      assert Envelopes(to, entry) == {};
    } else {
      var name :| name in to;
      FanoutSize(to - {name}, entry);
      assert Envelopes(to, entry) == Envelopes(to - {name}, entry) + {Envelope(name, entry)};
    }
  }

  lemma SubsetSize<T>(small: set<T>, large: set<T>)
    requires small <= large
    ensures |small| <= |large|
    ensures small != large ==> |small| < |large|
  {
    assert large == small + (large - small);
  }

  lemma GrowthShrinks(net: Net, at: Uri, entry: EntryData)
    requires at in net.nodes && Pairs(entry) <= net.published && DiffAspects(net.nodes[at], entry) != {}
    ensures |Missing(net.(nodes := net.nodes[at := AddEntryAspects(net.nodes[at], entry)]))| < |Missing(net)|
  {
    var net' := net.(nodes := net.nodes[at := AddEntryAspects(net.nodes[at], entry)]);
    forall address { StoredAspects(net.nodes[at], entry, address); }
    var aspect :| aspect in DiffAspects(net.nodes[at], entry);
    assert (entry.address, aspect) in Pairs(entry);
    assert (at, (entry.address, aspect)) in Missing(net) && (at, (entry.address, aspect)) !in Missing(net');
    SubsetSize(Missing(net'), Missing(net));
  }

  lemma HoldShrinks(net: Net, envelope: Envelope)
    requires Sourced(net) && envelope in net.holds && envelope.to in net.nodes && !Shallow(envelope.entry)
    requires DiffAspects(net.nodes[envelope.to], envelope.entry) != {}
    ensures Measure(Apply(net, DeliverHold(envelope))) < Measure(net)
  {
    var at, entry := envelope.to, envelope.entry;
    var net1 := net.(holds := net.holds - multiset{envelope});
    StoreEffect(net1, at, entry, HoldEntryAspectAddress(entry));
    hide Serve;
    var net' := Apply(net, DeliverHold(envelope));
    GrowthShrinks(net, at, entry);
    assert Missing(net') == Missing(net.(nodes := net.nodes[at := AddEntryAspects(net.nodes[at], entry)]));
    hide Missing;
    var fanout := OtherPeers(net.nodes[at]) * net.nodes.Keys;
    FanoutSize(fanout, entry);
    SubsetSize(fanout, net.nodes.Keys);
    assert net'.nodes.Keys == net.nodes.Keys;
    assert |net'.nodes| == |net'.nodes.Keys| == |net.nodes|;
    Times(2 * |net.nodes|, |Missing(net')|, |Missing(net)|);
  }

  /** Every gossip or hold delivery strictly shrinks the measure: gossip is emitted only when some
      node's holdings strictly grow. */
  lemma DeliveryShrinks(net: Net, step: Step)
    requires Sourced(net) && Enabled(net, step) && Internal(step)
    ensures Measure(Apply(net, step)) < Measure(net)
  {
    hide Serve;
    var net' := Apply(net, step);
    match step
    case DeliverGossip(envelope) =>
      GossipEffect(net, envelope);
      assert Missing(net') == Missing(net);
    case DeliverHold(envelope) =>
      if Shallow(envelope.entry) {
        ShallowEffect(net, envelope);
        assert Missing(net') == Missing(net);
      } else if DiffAspects(net.nodes[envelope.to], envelope.entry) == {} {
        var net1 := net.(holds := net.holds - multiset{envelope});
        StoreEffect(net1, envelope.to, envelope.entry, HoldEntryAspectAddress(envelope.entry));
        assert Missing(net') == Missing(net);
      } else {
        HoldShrinks(net, envelope);
      }
  }

  lemma {:induction false} Times(k: nat, small: nat, large: nat)
    requires small < large
    ensures k * small + k <= k * large
    decreases large
  {
    assert k * large == k * (large - 1) + k;
    if small < large - 1 {
      Times(k, small, large - 1);
    }
  }

  /** How many deliveries a run makes. */
  function Deliveries(steps: seq<Step>): nat {
    if steps == [] then 0 else (if Internal(steps[0]) then 1 else 0) + Deliveries(steps[1..])
  }

  /** Peer requests and passes put nothing in flight and change no holdings. */
  lemma OthersKeepMeasure(net: Net, step: Step)
    requires Enabled(net, step) && !Internal(step) && !step.Broadcast?
    ensures Measure(Apply(net, step)) == Measure(net)
  {
    hide Serve;
    hide Handle;
    var net' := Apply(net, step);
    if step.PeerRequest? {
      PeerEffect(net, step.at, step.request, step.now);
    }
    assert net'.nodes.Keys == net.nodes.Keys;
    assert |net'.nodes| == |net'.nodes.Keys| == |net.nodes|;
    assert Missing(net') == Missing(net);
  }

  /** A flood is finite, and this is how many deliveries it can make: without further broadcasts, however
      many peers are learned and passes made in between. */
  lemma {:induction false} FloodIsBounded(net: Net, steps: seq<Step>)
    requires Sourced(net) && ValidRun(net, steps)
    requires forall i :: 0 <= i < |steps| ==> !steps[i].Broadcast?
    ensures Deliveries(steps) + Measure(Run(net, steps)) <= Measure(net)
    decreases |steps|
  {
    hide Apply;
    hide Measure;
    if steps != [] {
      if Internal(steps[0]) {
        DeliveryShrinks(net, steps[0]);
      } else {
        OthersKeepMeasure(net, steps[0]);
      }
      StepSourced(net, steps[0]);
      FloodIsBounded(Apply(net, steps[0]), steps[1..]);
    }
  }

  /** And it always can run until nothing is in flight. */
  lemma FloodSettles(net: Net) returns (steps: seq<Step>)
    requires Sourced(net)
    ensures ValidRun(net, steps) && Quiescent(Run(net, steps))
    ensures forall i :: 0 <= i < |steps| ==> Internal(steps[i])
    decreases Measure(net)
  {
    if Quiescent(net) {
      steps := [];
    } else {
      var step: Step;
      if net.gossip != multiset{} {
        var envelope :| envelope in net.gossip;
        step := DeliverGossip(envelope);
      } else {
        var envelope :| envelope in net.holds;
        step := DeliverHold(envelope);
      }
      DeliveryShrinks(net, step);
      StepSourced(net, step);
      var rest := FloodSettles(Apply(net, step));
      steps := [step] + rest;
      assert steps[1..] == rest;
    }
  }
}
