/** A network of MirrorDht nodes that tell each other of peers. Any node may at any time receive any
    request from its owner or a processing pass; peer gossip and the hold requests it leads to are
    delivered reliably, one at a time, in any order. Owners accept every hold request. */
module PeerNetwork {
  import opened MirrorDht
  import opened Wrappers

  datatype Envelope = Envelope(to: Uri, peer: PeerData)

  datatype Net = Net(nodes: map<Uri, Node>, gossip: multiset<Envelope>, holds: multiset<Envelope>)

  datatype Step =
    | Ask(at: Uri, request: Request, now: u64)
    | DeliverGossip(envelope: Envelope, now: u64)
    | DeliverHold(envelope: Envelope, now: u64)
    | Pass(at: Uri, now: u64)

  ghost predicate Enabled(net: Net, step: Step) {
    match step
    case Ask(at, _, _) => at in net.nodes
    case DeliverGossip(envelope, _) => envelope in net.gossip && envelope.to in net.nodes
    case DeliverHold(envelope, _) => envelope in net.holds && envelope.to in net.nodes
    case Pass(at, _) => at in net.nodes && KeysAgree(net.nodes[at])
  }

  ghost function Envelopes(to: set<Uri>, peer: PeerData): set<Envelope> {
    set name | name in to :: Envelope(name, peer)
  }

  /** Carry one published command: peer gossip goes to every listed node of the network, a hold request
      comes straight back as an accepted hold. */
  ghost function Carry(net: Net, from: Uri, command: Command): Net {
    match command
    case GossipTo(peers, PeerGossip(peer)) =>
      net.(gossip := net.gossip + multiset(Envelopes(peers * net.nodes.Keys, peer)))
    case HoldPeerRequested(peer) => net.(holds := net.holds + multiset{Envelope(from, peer)})
    case _ => net
  }

  ghost function CarryAll(net: Net, from: Uri, commands: seq<Command>): Net
    decreases |commands|
  {
    if commands == [] then net else CarryAll(Carry(net, from, commands[0]), from, commands[1..])
  }

  ghost function Serve(net: Net, at: Uri, request: Request, now: u64): Net
    requires at in net.nodes
  {
    var reply := Handle(net.nodes[at], request, now);
    CarryAll(net.(nodes := net.nodes[at := reply.node]), at, reply.commands)
  }

  /** Which node a step happens at, and what it is asked there. */
  function Site(step: Step): Uri {
    match step
    case Ask(at, _, _) => at
    case DeliverGossip(envelope, _) => envelope.to
    case DeliverHold(envelope, _) => envelope.to
    case Pass(at, _) => at
  }

  function Asked(step: Step): Option<Request> {
    match step
    case Ask(_, request, _) => Some(request)
    case DeliverGossip(envelope, _) => Some(HandleGossip(Some(PeerGossip(envelope.peer))))
    case DeliverHold(envelope, _) => Some(HoldPeer(envelope.peer))
    case Pass(_, _) => None
  }

  /** What is left in flight when the step's envelope is taken out. */
  ghost function Taken(net: Net, step: Step): Net {
    match step
    case DeliverGossip(envelope, _) => net.(gossip := net.gossip - multiset{envelope})
    case DeliverHold(envelope, _) => net.(holds := net.holds - multiset{envelope})
    case _ => net
  }

  ghost function Apply(net: Net, step: Step): Net
    requires Enabled(net, step)
  {
    match Asked(step)
    case Some(request) => Serve(Taken(net, step), Site(step), request, step.now)
    case None =>
      var node := net.nodes[Site(step)];
      CarryAll(net.(nodes := net.nodes[Site(step) := Process(node, step.now)]), Site(step), SelfGossip(node, step.now))
  }

  ghost predicate ValidRun(net: Net, steps: seq<Step>)
    decreases |steps|
  {
    steps == [] || (Enabled(net, steps[0]) && ValidRun(Apply(net, steps[0]), steps[1..]))
  }

  ghost function Run(net: Net, steps: seq<Step>): Net
    requires ValidRun(net, steps)
    decreases |steps|
  {
    if steps == [] then net else Run(Apply(net, steps[0]), steps[1..])
  }

  // ----- What each request does to the network -----

  lemma CarryOne(net: Net, from: Uri, command: Command)
    ensures CarryAll(net, from, [command]) == Carry(net, from, command)
  {
    assert [command][1..] == [];
  }

  /** The gossip of a new or newer peer: its record to everyone known before, this node's own record to
      the peer. */
  ghost function Announced(net: Net, node: Node, peer: PeerData, record: PeerData): multiset<Envelope> {
    multiset(Envelopes(OtherPeers(node) * net.nodes.Keys, record)) +
    if peer.name == node.thisPeer.name then multiset{}
    else multiset(Envelopes({peer.name} * net.nodes.Keys, node.thisPeer))
  }

  lemma HoldEffect(net: Net, at: Uri, peer: PeerData, now: u64)
    requires at in net.nodes
    ensures var node := net.nodes[at];
            var node' := AddPeer(node, peer, now);
            Serve(net, at, HoldPeer(peer), now) ==
              if !Advances(node, peer) then net
              else net.(nodes := net.nodes[at := node'],
                        gossip := net.gossip + Announced(net, node, peer, node'.peers[peer.name]))
  {
    var node := net.nodes[at];
    var reply := Handle(node, HoldPeer(peer), now);
    assert net.nodes[at := node] == net.nodes;
    var net' := net.(nodes := net.nodes[at := reply.node]);
    assert net'.nodes.Keys == net.nodes.Keys;
    if |reply.commands| == 2 {
      assert reply.commands[1..] == [reply.commands[1]];
      CarryOne(Carry(net', at, reply.commands[0]), at, reply.commands[1]);
    } else if reply.commands != [] {
      CarryOne(net', at, reply.commands[0]);
    }
  }

  lemma GossipEffect(net: Net, at: Uri, peer: PeerData, now: u64)
    requires at in net.nodes
    ensures var node := net.nodes[at];
            Serve(net, at, HandleGossip(Some(PeerGossip(peer))), now) ==
              match GetPeer(node, peer.name)
              case None => net.(holds := net.holds + multiset{Envelope(at, peer)})
              case Some(known) =>
                net.(nodes := net.nodes[at := if peer.timestamp <= known.timestamp then node
                                              else AddPeer(node, peer, now)])
  {
    var node := net.nodes[at];
    var reply := Handle(node, HandleGossip(Some(PeerGossip(peer))), now);
    assert net.nodes[at := node] == net.nodes;
    if reply.commands != [] {
      CarryOne(net, at, reply.commands[0]);
    }
  }

  predicate AboutPeers(request: Request) {
    match request
    case HandleGossip(Some(PeerGossip(_))) => true
    case HoldPeer(_) => true
    case _ => false
  }

  lemma OtherEffect(net: Net, at: Uri, request: Request, now: u64)
    requires at in net.nodes && !AboutPeers(request)
    ensures var node, node' := net.nodes[at], Handle(net.nodes[at], request, now).node;
            Serve(net, at, request, now) == net.(nodes := net.nodes[at := node']) &&
            node'.peers == node.peers && node'.thisPeer == node.thisPeer.(location := node'.thisPeer.location)
  {
    var reply := Handle(net.nodes[at], request, now);
    if reply.commands != [] {
      CarryOne(net.(nodes := net.nodes[at := reply.node]), at, reply.commands[0]);
    }
  }

  lemma PassEffect(net: Net, at: Uri, now: u64)
    requires Enabled(net, Pass(at, now))
    ensures var node, node' := net.nodes[at], Process(net.nodes[at], now);
            Apply(net, Pass(at, now)) ==
              net.(nodes := net.nodes[at := node'],
                   gossip := net.gossip +
                     if Elapsed(now, node.lastGossip) > node.config.gossipInterval
                     then multiset(Envelopes(OtherPeers(node) * net.nodes.Keys, node.thisPeer)) else multiset{}) &&
            node'.peers == node.peers && node'.thisPeer == node.thisPeer
  {
    var node := net.nodes[at];
    var net' := net.(nodes := net.nodes[at := Process(node, now)]);
    assert net'.nodes.Keys == net.nodes.Keys;
    var commands := SelfGossip(node, now);
    if commands != [] {
      CarryOne(net', at, commands[0]);
    } else if OtherPeers(node) == {} {
      assert Envelopes(OtherPeers(node) * net.nodes.Keys, node.thisPeer) == {};
    }
  }

  // ----- What a node knows, and what it is about to hear -----

  predicate Known(node: Node, name: Uri, timestamp: u64) {
    (name in node.peers && timestamp <= node.peers[name].timestamp) ||
    (name == node.thisPeer.name && timestamp <= node.thisPeer.timestamp)
  }

  predicate Tells(envelope: Envelope, to: Uri, name: Uri, timestamp: u64) {
    envelope.to == to && envelope.peer.name == name && timestamp <= envelope.peer.timestamp
  }

  ghost predicate OnItsWay(net: Net, to: Uri, name: Uri, timestamp: u64) {
    (exists envelope :: envelope in net.gossip && Tells(envelope, to, name, timestamp)) ||
    (exists envelope :: envelope in net.holds && Tells(envelope, to, name, timestamp))
  }

  /** Node `to` knows the peer with at least this timestamp, or is about to hear of it. */
  ghost predicate Covered(net: Net, to: Uri, name: Uri, timestamp: u64) {
    to in net.nodes && (Known(net.nodes[to], name, timestamp) || OnItsWay(net, to, name, timestamp))
  }

  ghost predicate Knows(net: Net, name: Uri, peer: Uri) {
    name in net.nodes && peer in net.nodes && peer in OtherPeers(net.nodes[name])
  }

  /** Nodes are filed under their names, and so are the peers they hold. */
  ghost predicate Filed(net: Net) {
    forall name :: name in net.nodes ==> NodeFiled(net.nodes[name], name)
  }

  predicate NodeFiled(node: Node, name: Uri) {
    node.thisPeer.name == name && forall peer :: peer in node.peers ==> node.peers[peer].name == peer
  }

  /** Nothing a node knows of peers gets lost or older, and its own timestamp is fixed. */
  predicate Learns(node: Node, node': Node) {
    node'.thisPeer.name == node.thisPeer.name && node'.thisPeer.timestamp == node.thisPeer.timestamp &&
    forall peer :: peer in node.peers ==>
      peer in node'.peers && node.peers[peer].timestamp <= node'.peers[peer].timestamp
  }

  lemma HandleLearns(node: Node, request: Request, now: u64, name: Uri)
    ensures var node' := Handle(node, request, now).node;
            Learns(node, node') && (NodeFiled(node, name) ==> NodeFiled(node', name))
  {
  }

  /** Only the node at `at` changed, and it learned. */
  ghost predicate LearnsAt(net: Net, net': Net, at: Uri) {
    net'.nodes.Keys == net.nodes.Keys && at in net.nodes && Learns(net.nodes[at], net'.nodes[at]) &&
    (forall name :: name in net.nodes && name != at ==> net'.nodes[name] == net.nodes[name]) &&
    (Filed(net) ==> Filed(net'))
  }

  lemma OneLearns(net: Net, net': Net, at: Uri, node': Node)
    requires at in net.nodes && net'.nodes == net.nodes[at := node'] && Learns(net.nodes[at], node')
    requires NodeFiled(net.nodes[at], at) ==> NodeFiled(node', at)
    ensures LearnsAt(net, net', at)
  {
    hide Learns;
    hide NodeFiled;
  }

  /** A step only changes the node it happens at, which learns. */
  lemma StepLearns(net: Net, step: Step)
    requires Enabled(net, step)
    ensures LearnsAt(net, Apply(net, step), Site(step))
  {
    hide Serve;
    hide Handle;
    hide Learns;
    hide NodeFiled;
    var at := Site(step);
    match Asked(step)
    case Some(request) =>
      HandleLearns(net.nodes[at], request, step.now, at);
      ServeNodes(Taken(net, step), at, request, step.now);
      OneLearns(net, Apply(net, step), at, Handle(net.nodes[at], request, step.now).node);
    case None =>
      PassEffect(net, at, step.now);
      hide Process;
      hide SelfGossip;
      SameLearns(net.nodes[at], Process(net.nodes[at], step.now), at);
      OneLearns(net, Apply(net, step), at, Process(net.nodes[at], step.now));
  }

  lemma SameLearns(node: Node, node': Node, name: Uri)
    requires node'.peers == node.peers && node'.thisPeer == node.thisPeer
    ensures Learns(node, node') && (NodeFiled(node, name) ==> NodeFiled(node', name))
  {
  }

  lemma ServeNodes(net: Net, at: Uri, request: Request, now: u64)
    requires at in net.nodes
    ensures Serve(net, at, request, now).nodes == net.nodes[at := Handle(net.nodes[at], request, now).node]
    ensures net.gossip <= Serve(net, at, request, now).gossip && net.holds <= Serve(net, at, request, now).holds
  {
    hide CarryAll;
    match request
    case HandleGossip(Some(PeerGossip(peer))) => GossipEffect(net, at, peer, now);
    case HoldPeer(peer) => HoldEffect(net, at, peer, now);
    case _ => OtherEffect(net, at, request, now);
  }

  /** Taking delivery loses nothing: a gossiped record is known now, or asked to be held; a held one is
      known now. */
  lemma DeliveryHeard(net: Net, step: Step)
    requires Enabled(net, step) && (step.DeliverGossip? || step.DeliverHold?)
    ensures var e, net' := step.envelope, Apply(net, step);
            e.to in net'.nodes &&
            (Known(net'.nodes[e.to], e.peer.name, e.peer.timestamp) || (step.DeliverGossip? && e in net'.holds))
  {
    var e := step.envelope;
    if step.DeliverGossip? {
      GossipEffect(Taken(net, step), e.to, e.peer, step.now);
    } else {
      HoldEffect(Taken(net, step), e.to, e.peer, step.now);
    }
  }

  /** No step undoes coverage: what a node knows or is about to hear, it knows or is about to hear
      ever after. */
  lemma StepKeepsCovered(net: Net, step: Step, to: Uri, name: Uri, timestamp: u64)
    requires Enabled(net, step) && Covered(net, to, name, timestamp)
    ensures Covered(Apply(net, step), to, name, timestamp)
  {
    hide Serve;
    var net' := Apply(net, step);
    StepLearns(net, step);
    StepKeepsFlight(net, step);
    if Known(net.nodes[to], name, timestamp) {
      assert Known(net'.nodes[to], name, timestamp);
    } else if e :| e in net.gossip && Tells(e, to, name, timestamp) {
      if e !in net'.gossip {
        DeliveryHeard(net, step);
      }
    } else {
      var e :| e in net.holds && Tells(e, to, name, timestamp);
      if e !in net'.holds {
        DeliveryHeard(net, step);
      }
    }
  }

  lemma StepKeepsFlight(net: Net, step: Step)
    requires Enabled(net, step)
    ensures var net' := Apply(net, step);
            (forall e :: e in net.gossip && !(step.DeliverGossip? && step.envelope == e) ==> e in net'.gossip) &&
            (forall e :: e in net.holds && !(step.DeliverHold? && step.envelope == e) ==> e in net'.holds)
  {
    hide Serve;
    var net1, net' := Taken(net, step), Apply(net, step);
    match Asked(step)
    case Some(request) =>
      ServeNodes(net1, Site(step), request, step.now);
      assert net1.gossip <= net'.gossip && net1.holds <= net'.holds;
      hide Apply;
      if step.DeliverGossip? {
        AllBut(net.gossip, net'.gossip, step.envelope);
      } else if step.DeliverHold? {
        AllBut(net.holds, net'.holds, step.envelope);
      }
    case None =>
      PassEffect(net, step.at, step.now);
  }

  lemma AllBut(all: multiset<Envelope>, left: multiset<Envelope>, gone: Envelope)
    requires all - multiset{gone} <= left
    ensures forall e :: e in all && e != gone ==> e in left
  {
    forall e | e in all && e != gone ensures e in left {
      assert e in all - multiset{gone};
    }
  }

  lemma {:induction false} RunKeepsCovered(net: Net, steps: seq<Step>, to: Uri, name: Uri, timestamp: u64)
    requires ValidRun(net, steps) && Covered(net, to, name, timestamp)
    ensures Covered(Run(net, steps), to, name, timestamp)
    decreases |steps|
  {
    if steps != [] {
      hide Apply;
      hide Covered;
      StepKeepsCovered(net, steps[0], to, name, timestamp);
      RunKeepsCovered(Apply(net, steps[0]), steps[1..], to, name, timestamp);
    }
  }

  // ----- What holding a peer sets off -----

  /** A node that is asked, by its owner or after gossip, to hold a peer that is new or newer. */
  ghost predicate HoldsNews(net: Net, step: Step, peer: PeerData) {
    Enabled(net, step) && Asked(step) == Some(HoldPeer(peer)) && Advances(net.nodes[Site(step)], peer)
  }

  /** Holding a new or newer peer tells everyone known before of it, and the peer of this node: in every
      continuation they know it, with at least that timestamp, or are about to hear of it. */
  lemma HoldingTellsAll(net: Net, step: Step, peer: PeerData, more: seq<Step>)
    requires Filed(net) && HoldsNews(net, step, peer) && ValidRun(Apply(net, step), more)
    ensures var net', end := Apply(net, step), Run(Apply(net, step), more);
            var at := Site(step);
            at in net'.nodes && peer.name in net'.nodes[at].peers &&
            net'.nodes[at].peers[peer.name].timestamp == peer.timestamp &&
            (forall to :: Knows(net, at, to) ==> Covered(end, to, peer.name, peer.timestamp)) &&
            (peer.name in net.nodes && peer.name != at ==>
              Covered(end, peer.name, at, net.nodes[at].thisPeer.timestamp))
  {
    var at, net' := Site(step), Apply(net, step);
    HoldingTells(net, step, peer);
    hide Apply;
    hide Covered;
    forall to | Knows(net, at, to) ensures Covered(Run(net', more), to, peer.name, peer.timestamp) {
      RunKeepsCovered(net', more, to, peer.name, peer.timestamp);
    }
    if peer.name in net.nodes && peer.name != at {
      RunKeepsCovered(net', more, peer.name, at, net.nodes[at].thisPeer.timestamp);
    }
  }

  lemma HoldingTells(net: Net, step: Step, peer: PeerData)
    requires Filed(net) && HoldsNews(net, step, peer)
    ensures var at, net' := Site(step), Apply(net, step);
            at in net'.nodes && peer.name in net'.nodes[at].peers &&
            net'.nodes[at].peers[peer.name].timestamp == peer.timestamp &&
            (forall to :: Knows(net, at, to) ==> Covered(net', to, peer.name, peer.timestamp)) &&
            (peer.name in net.nodes && peer.name != at ==>
              Covered(net', peer.name, at, net.nodes[at].thisPeer.timestamp))
  {
    hide Serve;
    hide Covered;
    hide Advances;
    var net1 := Taken(net, step);
    ServeTells(net1, Site(step), peer, step.now);
    assert forall to :: Knows(net, Site(step), to) ==> Knows(net1, Site(step), to);
  }

  lemma ServeTells(net: Net, at: Uri, peer: PeerData, now: u64)
    requires Filed(net) && at in net.nodes && Advances(net.nodes[at], peer)
    ensures var net' := Serve(net, at, HoldPeer(peer), now);
            at in net'.nodes && peer.name in net'.nodes[at].peers &&
            net'.nodes[at].peers[peer.name].timestamp == peer.timestamp &&
            (forall to :: Knows(net, at, to) ==> Covered(net', to, peer.name, peer.timestamp)) &&
            (peer.name in net.nodes && peer.name != at ==>
              Covered(net', peer.name, at, net.nodes[at].thisPeer.timestamp))
  {
    HoldEffect(net, at, peer, now);
    hide Serve;
    var node, net' := net.nodes[at], Serve(net, at, HoldPeer(peer), now);
    var record := AddPeer(node, peer, now).peers[peer.name];
    assert record.name == peer.name && record.timestamp == peer.timestamp;
    hide AddPeer;
    forall to | Knows(net, at, to) ensures Covered(net', to, peer.name, peer.timestamp) {
      AnnouncedOne(net, node, peer, record, to);
      assert Tells(Envelope(to, record), to, peer.name, peer.timestamp);
    }
    if peer.name in net.nodes && peer.name != at {
      AnnouncedOne(net, node, peer, record, peer.name);
      assert Tells(Envelope(peer.name, node.thisPeer), peer.name, at, node.thisPeer.timestamp);
    }
  }

  lemma AnnouncedOne(net: Net, node: Node, peer: PeerData, record: PeerData, to: Uri)
    requires to in net.nodes
    ensures to in OtherPeers(node) ==> Envelope(to, record) in Announced(net, node, peer, record)
    ensures to == peer.name != node.thisPeer.name ==> Envelope(to, node.thisPeer) in Announced(net, node, peer, record)
  {
  }

  /** A pass tells every known peer of this node exactly when the gossip interval has passed since the
      last time, and then counts from now; in every continuation they know this node or are about to. */
  lemma PassTellsExactlyWhen(net: Net, at: Uri, now: u64, more: seq<Step>)
    requires Filed(net) && Enabled(net, Pass(at, now)) && ValidRun(Apply(net, Pass(at, now)), more)
    ensures var node, net' := net.nodes[at], Apply(net, Pass(at, now));
            at in net'.nodes &&
            if Elapsed(now, node.lastGossip) > node.config.gossipInterval
            then net'.nodes[at].lastGossip == now &&
                 forall to :: Knows(net, at, to) ==>
                   Envelope(to, node.thisPeer) in net'.gossip &&
                   Covered(Run(net', more), to, at, node.thisPeer.timestamp)
            else net'.nodes[at].lastGossip == node.lastGossip && net'.gossip == net.gossip
  {
    var net', own := Apply(net, Pass(at, now)), net.nodes[at].thisPeer;
    PassEffect(net, at, now);
    hide CarryAll;
    hide SelfGossip;
    if Elapsed(now, net.nodes[at].lastGossip) > net.nodes[at].config.gossipInterval {
      forall to | Knows(net, at, to)
        ensures Envelope(to, own) in net'.gossip && Covered(Run(net', more), to, at, own.timestamp)
      {
        assert Envelope(to, own) in net'.gossip && Tells(Envelope(to, own), to, at, own.timestamp);
        RunKeepsCovered(net', more, to, at, own.timestamp);
      }
    }
  }

  // ----- Everyone gets to know everyone -----

  /** Whoever is known to a node has heard of that node, or is about to. */
  ghost predicate Answered(net: Net) {
    forall name, peer :: Knows(net, name, peer) ==> Covered(net, peer, name, net.nodes[name].thisPeer.timestamp)
  }

  /** Of two peers of one node at least one has heard of the other, or is about to. */
  ghost predicate Introduced(net: Net) {
    forall name, peer, other :: Knows(net, name, peer) && Knows(net, name, other) && peer != other ==>
      Covered(net, peer, other, 0) || Covered(net, other, peer, 0)
  }

  ghost predicate Meeting(net: Net) {
    Filed(net) && Answered(net) && Introduced(net)
  }

  /** Other nodes become known only by being held. */
  lemma LearnedByHolding(net: Net, step: Step, name: Uri, peer: Uri)
    requires Filed(net) && Enabled(net, step) && Knows(Apply(net, step), name, peer) && !Knows(net, name, peer)
    ensures name == Site(step) && name != peer && Asked(step).Some? && Asked(step).value.HoldPeer? &&
            Asked(step).value.peer.name == peer && HoldsNews(net, step, Asked(step).value.peer)
  {
    StepLearns(net, step);
    AfterStep(net, step);
    hide Apply;
    hide Serve;
    FiledAt(net, name);
    hide Filed;
    assert name == Site(step);
    if Asked(step).Some? {
      NewByHolding(net.nodes[name], Asked(step).value, step.now, peer);
    }
  }

  lemma NewByHolding(node: Node, request: Request, now: u64, peer: Uri)
    requires peer !in OtherPeers(node) && peer in OtherPeers(Handle(node, request, now).node)
    ensures peer != node.thisPeer.name && request.HoldPeer? && request.peer.name == peer && Advances(node, request.peer)
  {
  }

  lemma StepKeepsMeeting(net: Net, step: Step)
    requires Meeting(net) && Enabled(net, step)
    ensures Meeting(Apply(net, step))
  {
    var net' := Apply(net, step);
    StepLearns(net, step);
    hide Apply;
    hide Covered;
    forall name, peer | Knows(net', name, peer)
      ensures Covered(net', peer, name, net'.nodes[name].thisPeer.timestamp)
    {
      var stamp := net.nodes[name].thisPeer.timestamp;
      if Knows(net, name, peer) {
        StepKeepsCovered(net, step, peer, name, stamp);
      } else {
        LearnedByHolding(net, step, name, peer);
        HoldingTells(net, step, Asked(step).value.peer);
      }
    }
    forall name, peer, other | Knows(net', name, peer) && Knows(net', name, other) && peer != other
      ensures Covered(net', peer, other, 0) || Covered(net', other, peer, 0)
    {
      StepIntroduces(net, step, name, peer, other);
    }
  }

  lemma StepIntroduces(net: Net, step: Step, name: Uri, peer: Uri, other: Uri)
    requires Meeting(net) && Enabled(net, step) && peer != other
    requires Knows(Apply(net, step), name, peer) && Knows(Apply(net, step), name, other)
    ensures Covered(Apply(net, step), peer, other, 0) || Covered(Apply(net, step), other, peer, 0)
  {
    var net' := Apply(net, step);
    hide Apply;
    hide Covered;
    if !Knows(net, name, peer) {
      LearnedByHolding(net, step, name, peer);
      if !Knows(net, name, other) {
        LearnedByHolding(net, step, name, other);
      }
      HoldingTells(net, step, Asked(step).value.peer);
      CoveredOlder(net', other, peer, Asked(step).value.peer.timestamp);
    } else if !Knows(net, name, other) {
      LearnedByHolding(net, step, name, other);
      HoldingTells(net, step, Asked(step).value.peer);
      CoveredOlder(net', peer, other, Asked(step).value.peer.timestamp);
    } else if Covered(net, peer, other, 0) {
      StepKeepsCovered(net, step, peer, other, 0);
    } else {
      StepKeepsCovered(net, step, other, peer, 0);
    }
  }

  lemma CoveredOlder(net: Net, to: Uri, name: Uri, timestamp: u64)
    requires Covered(net, to, name, timestamp)
    ensures Covered(net, to, name, 0)
  {
    if !Known(net.nodes[to], name, 0) {
      if e :| e in net.gossip && Tells(e, to, name, timestamp) {
        assert Tells(e, to, name, 0);
      } else {
        var e :| e in net.holds && Tells(e, to, name, timestamp);
        assert Tells(e, to, name, 0);
      }
    }
  }

  lemma {:induction false} RunKeepsMeeting(net: Net, steps: seq<Step>)
    requires Meeting(net) && ValidRun(net, steps)
    ensures Meeting(Run(net, steps))
    decreases |steps|
  {
    if steps != [] {
      hide Apply;
      hide Meeting;
      StepKeepsMeeting(net, steps[0]);
      RunKeepsMeeting(Apply(net, steps[0]), steps[1..]);
    }
  }

  ghost predicate Quiet(net: Net) {
    net.gossip == multiset{} && net.holds == multiset{}
  }

  /** A network that starts: nobody knows anybody. */
  ghost predicate Start(net: Net) {
    Quiet(net) && forall name :: name in net.nodes ==>
      net.nodes[name].thisPeer.name == name && net.nodes[name].peers == map[]
  }

  lemma QuietMeans(net: Net, to: Uri, name: Uri, timestamp: u64)
    requires Filed(net) && Quiet(net) && Covered(net, to, name, timestamp) && to != name && name in net.nodes
    ensures Knows(net, to, name) && timestamp <= net.nodes[to].peers[name].timestamp
  {
  }

  lemma MeshNow(net: Net, a: Uri, b: Uri, c: Uri)
    requires Meeting(net) && Quiet(net) && Knows(net, a, b)
    ensures Knows(net, b, a)
    ensures Knows(net, b, c) && a != c ==> Knows(net, a, c) && Knows(net, c, a)
  {
    hide Covered;
    BackNow(net, a, b);
    if Knows(net, b, c) && a != c {
      if Covered(net, a, c, 0) {
        QuietMeans(net, a, c, 0);
        BackNow(net, a, c);
      } else {
        assert Covered(net, c, a, 0);
        QuietMeans(net, c, a, 0);
        BackNow(net, c, a);
      }
    }
  }

  lemma BackNow(net: Net, a: Uri, b: Uri)
    requires Meeting(net) && Quiet(net) && Knows(net, a, b)
    ensures Knows(net, b, a)
  {
    assert b != a;
    QuietMeans(net, b, a, net.nodes[a].thisPeer.timestamp);
  }

  /** `path` leads from `from` to `to`, each node knowing the next. */
  ghost predicate Path(net: Net, from: Uri, path: seq<Uri>, to: Uri)
    decreases |path|
  {
    if path == [] then from == to else Knows(net, from, path[0]) && Path(net, path[0], path[1..], to)
  }

  lemma {:induction false} MeshAlong(net: Net, from: Uri, path: seq<Uri>, to: Uri)
    requires Meeting(net) && Quiet(net) && Path(net, from, path, to) && from != to
    ensures Knows(net, from, to) && Knows(net, to, from)
    decreases |path|
  {
    hide Meeting;
    if path[0] == to {
      MeshNow(net, from, to, to);
    } else {
      MeshAlong(net, path[0], path[1..], to);
      MeshNow(net, from, path[0], to);
    }
  }

  lemma StartMeets(net: Net)
    requires Start(net)
    ensures Meeting(net)
  {
  }

  /** Everyone gets to know everyone: in every run from empty tables, whatever peers owners make known
      when and in whatever order gossip arrives, once no peer traffic is in flight two nodes joined by
      any path of acquaintance know each other directly, so that neighbours list the same nodes. */
  lemma EveryoneMeets(net: Net, steps: seq<Step>, from: Uri, path: seq<Uri>, to: Uri)
    requires Start(net) && ValidRun(net, steps) && Quiet(Run(net, steps))
    requires Path(Run(net, steps), from, path, to) && from != to
    ensures var end := Run(net, steps);
            Knows(end, from, to) && Knows(end, to, from) &&
            forall other :: other != from && other != to ==> (Knows(end, from, other) <==> Knows(end, to, other))
  {
    hide Meeting;
    StartMeets(net);
    RunKeepsMeeting(net, steps);
    var end := Run(net, steps);
    MeshAlong(end, from, path, to);
    forall other | other != from && other != to ensures Knows(end, from, other) <==> Knows(end, to, other) {
      MeshNow(end, from, to, other);
      MeshNow(end, to, from, other);
    }
  }

  // ----- Timestamps -----

  /** Whatever a node holds of a peer, each peer it knows knows at least as new, or is about to. */
  ghost predicate Spreading(net: Net) {
    forall name, to, peer :: Knows(net, name, to) && peer in net.nodes[name].peers ==>
      Covered(net, to, peer, net.nodes[name].peers[peer].timestamp)
  }

  /** The node does not tell `to` what it now holds of `peer`: `to` is only just learned, or `peer` was
      refreshed by gossip. */
  predicate Untold(node: Node, request: Request, now: u64, to: Uri, peer: Uri) {
    var node' := Handle(node, request, now).node;
    to in OtherPeers(node') && peer in node'.peers &&
    match request
    case HoldPeer(_) =>
      to !in node.peers && (peer != node.thisPeer.name || node'.peers[peer].timestamp > node.thisPeer.timestamp)
    case HandleGossip(Some(PeerGossip(gossiped))) =>
      peer == gossiped.name && (peer !in node.peers || node'.peers[peer] != node.peers[peer])
    case _ => false
  }

  /** A step is timely if everyone the node does not tell something has it or is about to hear it. */
  ghost predicate Timely(net: Net, step: Step) {
    Asked(step).Some? && Site(step) in net.nodes ==>
      var node := net.nodes[Site(step)];
      forall to, peer :: to in net.nodes && Untold(node, Asked(step).value, step.now, to, peer) ==>
        Covered(net, to, peer, Handle(node, Asked(step).value, step.now).node.peers[peer].timestamp)
  }

  /** What is covered after a step at another node was covered before, unless the step tells it. */
  lemma CoveredWas(net: Net, step: Step, to: Uri, name: Uri, timestamp: u64)
    requires Enabled(net, step) && to != Site(step) && Covered(Apply(net, step), to, name, timestamp)
    requires forall e :: e in Apply(net, step).gossip && Tells(e, to, name, timestamp) ==> e in net.gossip
    requires forall e :: e in Apply(net, step).holds && Tells(e, to, name, timestamp) ==> e in net.holds
    ensures Covered(net, to, name, timestamp)
  {
    StepLearns(net, step);
  }

  /** What a hold tells is what `Untold` leaves out, and gossip tells nobody else anything. */
  lemma UntoldIsSilent(net: Net, step: Step, to: Uri, peer: Uri, stamp: u64)
    requires Filed(net) && Enabled(net, step) && Asked(step).Some? && to in net.nodes
    requires var node := net.nodes[Site(step)];
             Untold(node, Asked(step).value, step.now, to, peer) &&
             stamp == Handle(node, Asked(step).value, step.now).node.peers[peer].timestamp
    ensures forall e :: e in Apply(net, step).gossip && Tells(e, to, peer, stamp) ==> e in net.gossip
    ensures forall e :: e in Apply(net, step).holds && Tells(e, to, peer, stamp) ==> e in net.holds
  {
    hide Serve;
    hide Filed;
    var at, net1 := Site(step), Taken(net, step);
    assert net.nodes[at].thisPeer.name == at by { FiledAt(net, at); }
    match Asked(step).value
    case HandleGossip(Some(PeerGossip(gossiped))) =>
      GossipEffect(net1, at, gossiped, step.now);
      hide AddPeer;
    case HoldPeer(held) =>
      HoldEffect(net1, at, held, step.now);
      if Advances(net.nodes[at], held) {
        NotAnnounced(net1, at, held, step.now, to, peer, stamp);
      }
      hide Announced;
      hide AddPeer;
      hide Untold;
    case _ =>
  }

  lemma FiledAt(net: Net, name: Uri)
    requires Filed(net) && name in net.nodes
    ensures net.nodes[name].thisPeer.name == name
  {
  }

  lemma NotAnnounced(net: Net, at: Uri, held: PeerData, now: u64, to: Uri, peer: Uri, stamp: u64)
    requires at in net.nodes && Advances(net.nodes[at], held) && Untold(net.nodes[at], HoldPeer(held), now, to, peer)
    requires stamp == AddPeer(net.nodes[at], held, now).peers[peer].timestamp
    ensures var node := net.nodes[at];
            forall e :: e in Announced(net, node, held, AddPeer(node, held, now).peers[held.name]) ==>
              !Tells(e, to, peer, stamp)
  {
    var node := net.nodes[at];
    AnnouncedTo(net, node, held, AddPeer(node, held, now).peers[held.name]);
    hide Announced;
  }

  lemma AnnouncedTo(net: Net, node: Node, peer: PeerData, record: PeerData)
    ensures forall e :: e in Announced(net, node, peer, record) ==>
              (e.to in node.peers && e.peer == record) || (e.to == peer.name && e.peer == node.thisPeer)
  {
  }

  lemma SpreadsIfTimely(net: Net, step: Step, to: Uri, peer: Uri)
    requires Filed(net) && Spreading(net) && Enabled(net, step) && Timely(net, step)
    requires Knows(Apply(net, step), Site(step), to) && peer in Apply(net, step).nodes[Site(step)].peers
    ensures Covered(Apply(net, step), to, peer, Apply(net, step).nodes[Site(step)].peers[peer].timestamp)
  {
    var at, net' := Site(step), Apply(net, step);
    StepLearns(net, step);
    AfterStep(net, step);
    var node, stamp := net.nodes[at], net'.nodes[at].peers[peer].timestamp;
    hide Apply;
    hide Covered;
    hide Serve;
    if Asked(step).Some? {
      ToldOrKept(node, Asked(step).value, step.now, to, peer);
    }
    hide Untold;
    hide Handle;
    if Asked(step).Some? && Untold(node, Asked(step).value, step.now, to, peer) {
      StepKeepsCovered(net, step, to, peer, stamp);
    } else if peer in node.peers && node.peers[peer].timestamp == stamp && to in node.peers {
      assert Knows(net, at, to);
      StepKeepsCovered(net, step, to, peer, stamp);
    } else {
      HoldingTells(net, step, Asked(step).value.peer);
      if to !in node.peers {
        CoveredLess(net', to, at, node.thisPeer.timestamp, stamp);
      } else {
        assert Knows(net, at, to);
      }
    }
  }

  /** What a node now holds of `peer` and `to` is not left untold of, it held before, or tells `to`. */
  lemma ToldOrKept(node: Node, request: Request, now: u64, to: Uri, peer: Uri)
    requires var node' := Handle(node, request, now).node;
             to in OtherPeers(node') && peer in node'.peers
    ensures var node' := Handle(node, request, now).node;
            Untold(node, request, now, to, peer) ||
            (to in node.peers && peer in node.peers && node.peers[peer] == node'.peers[peer]) ||
            (request.HoldPeer? && Advances(node, request.peer) &&
             if to in node.peers then peer == request.peer.name
             else to == request.peer.name && peer == node.thisPeer.name &&
                  node'.peers[peer].timestamp <= node.thisPeer.timestamp)
  {
  }

  lemma CoveredLess(net: Net, to: Uri, name: Uri, timestamp: u64, less: u64)
    requires Covered(net, to, name, timestamp) && less <= timestamp
    ensures Covered(net, to, name, less)
  {
    if !Known(net.nodes[to], name, less) {
      if e :| e in net.gossip && Tells(e, to, name, timestamp) {
        assert Tells(e, to, name, less);
      } else {
        var e :| e in net.holds && Tells(e, to, name, timestamp);
        assert Tells(e, to, name, less);
      }
    }
  }

  lemma AfterStep(net: Net, step: Step)
    requires Enabled(net, step)
    ensures Site(step) in Apply(net, step).nodes
    ensures var node, node' := net.nodes[Site(step)], Apply(net, step).nodes[Site(step)];
            match Asked(step)
            case Some(request) => node' == Handle(node, request, step.now).node
            case None => node'.peers == node.peers
  {
    hide Serve;
    match Asked(step)
    case Some(request) => ServeNodes(Taken(net, step), Site(step), request, step.now);
    case None => PassEffect(net, step.at, step.now);
  }

  /** A step keeps timestamps spreading exactly when it is timely: those it does not tell have it. */
  lemma StepSpreadsExactlyWhen(net: Net, step: Step)
    requires Filed(net) && Spreading(net) && Enabled(net, step)
    ensures Spreading(Apply(net, step)) <==> Timely(net, step)
  {
    var at, net' := Site(step), Apply(net, step);
    StepLearns(net, step);
    AfterStep(net, step);
    hide Apply;
    hide Covered;
    if Timely(net, step) {
      forall name, to, peer | Knows(net', name, to) && peer in net'.nodes[name].peers
        ensures Covered(net', to, peer, net'.nodes[name].peers[peer].timestamp)
      {
        if name == at {
          SpreadsIfTimely(net, step, to, peer);
        } else {
          assert Knows(net, name, to);
          StepKeepsCovered(net, step, to, peer, net.nodes[name].peers[peer].timestamp);
        }
      }
    }
    if Spreading(net') && Asked(step).Some? {
      var node := net.nodes[at];
      forall to, peer | to in net.nodes && Untold(node, Asked(step).value, step.now, to, peer)
        ensures Covered(net, to, peer, net'.nodes[at].peers[peer].timestamp)
      {
        assert Knows(net', at, to);
        UntoldIsSilent(net, step, to, peer, net'.nodes[at].peers[peer].timestamp);
        CoveredWas(net, step, to, peer, net'.nodes[at].peers[peer].timestamp);
      }
    }
  }

  ghost predicate TimelyRun(net: Net, steps: seq<Step>)
    requires ValidRun(net, steps)
    decreases |steps|
  {
    steps == [] || (Timely(net, steps[0]) && TimelyRun(Apply(net, steps[0]), steps[1..]))
  }

  lemma {:induction false} TimelyRunSpreads(net: Net, steps: seq<Step>)
    requires Filed(net) && Spreading(net) && ValidRun(net, steps) && TimelyRun(net, steps)
    ensures Spreading(Run(net, steps))
    decreases |steps|
  {
    if steps != [] {
      StepLearns(net, steps[0]);
      hide Apply;
      hide Spreading;
      hide Timely;
      StepSpreadsExactlyWhen(net, steps[0]);
      TimelyRunSpreads(Apply(net, steps[0]), steps[1..]);
    }
  }

  /** Two neighbours hold the same of everyone else: the same names, the same timestamps. */
  ghost predicate Agree(net: Net, a: Uri, b: Uri) {
    a in net.nodes && b in net.nodes &&
    forall peer :: peer != a && peer != b ==>
      (peer in net.nodes[a].peers <==> peer in net.nodes[b].peers) &&
      (peer in net.nodes[a].peers && peer in net.nodes[b].peers ==>
        net.nodes[a].peers[peer].timestamp == net.nodes[b].peers[peer].timestamp)
  }

  lemma OneSide(net: Net, a: Uri, b: Uri, peer: Uri)
    requires Filed(net) && Quiet(net) && Spreading(net) && Knows(net, a, b) && peer != b && peer in net.nodes[a].peers
    ensures peer in net.nodes[b].peers && net.nodes[a].peers[peer].timestamp <= net.nodes[b].peers[peer].timestamp
  {
  }

  /** Tables agree: in every run of timely steps, once no peer traffic is in flight, two nodes of which
      one knows the other hold the same peers, outsiders too, with the same timestamps. */
  lemma SettledTablesAgree(net: Net, steps: seq<Step>, a: Uri, b: Uri)
    requires Start(net) && ValidRun(net, steps) && TimelyRun(net, steps) && Quiet(Run(net, steps))
    requires Knows(Run(net, steps), a, b)
    ensures Agree(Run(net, steps), a, b)
  {
    StartMeets(net);
    RunKeepsMeeting(net, steps);
    TimelyRunSpreads(net, steps);
    hide Run;
    hide ValidRun;
    hide TimelyRun;
    var end := Run(net, steps);
    MeshNow(end, a, b, b);
    hide Spreading;
    hide Meeting;
    hide Knows;
    forall peer | peer != a && peer != b
      ensures peer in end.nodes[a].peers <==> peer in end.nodes[b].peers
      ensures peer in end.nodes[a].peers && peer in end.nodes[b].peers ==>
                end.nodes[a].peers[peer].timestamp == end.nodes[b].peers[peer].timestamp
    {
      if peer in end.nodes[a].peers {
        OneSide(end, a, b, peer);
      }
      if peer in end.nodes[b].peers {
        OneSide(end, b, a, peer);
      }
    }
  }

  /** A gossiped refresh stays where it arrives: in any quiet network it leaves the node and each
      neighbour with different timestamps, and nothing in flight to mend that. */
  lemma RefreshStaysPut(net: Net, a: Uri, b: Uri, peer: PeerData, now: u64)
    requires Filed(net) && Quiet(net) && Knows(net, a, b) && peer.name != a && peer.name != b
    requires peer.name in net.nodes[a].peers && peer.name in net.nodes[b].peers
    requires net.nodes[a].peers[peer.name].timestamp == net.nodes[b].peers[peer.name].timestamp < peer.timestamp
    ensures var net' := Apply(net, Ask(a, HandleGossip(Some(PeerGossip(peer))), now));
            Quiet(net') && Knows(net', a, b) && !Agree(net', a, b)
  {
    var step := Ask(a, HandleGossip(Some(PeerGossip(peer))), now);
    GossipEffect(net, a, peer, now);
    var net' := Apply(net, step);
    assert net'.nodes[a].peers[peer.name].timestamp == peer.timestamp;
    assert net'.nodes[b] == net.nodes[b];
  }

  // ----- Records that carry the peer's own timestamp -----

  /** A record of a node of the network carries that node's own timestamp. */
  predicate Genuine(net: Net, peer: PeerData) {
    peer.name in net.nodes ==> peer.timestamp == net.nodes[peer.name].thisPeer.timestamp
  }

  ghost predicate AllGenuine(net: Net) {
    (forall name, peer :: name in net.nodes && peer in net.nodes[name].peers ==>
      Genuine(net, net.nodes[name].peers[peer])) &&
    (forall e :: e in net.gossip ==> Genuine(net, e.peer)) && (forall e :: e in net.holds ==> Genuine(net, e.peer))
  }

  /** Owners hand in genuine records. */
  predicate Honest(net: Net, step: Step) {
    match step
    case Ask(_, HoldPeer(peer), _) => Genuine(net, peer)
    case Ask(_, HandleGossip(Some(PeerGossip(peer))), _) => Genuine(net, peer)
    case _ => true
  }

  lemma StepKeepsGenuine(net: Net, step: Step)
    requires Filed(net) && AllGenuine(net) && Enabled(net, step) && Honest(net, step)
    ensures AllGenuine(Apply(net, step))
  {
    hide Serve;
    hide Filed;
    hide AllGenuine;
    hide Genuine;
    match step
    case Ask(at, request, now) =>
      ServeKeepsGenuine(net, at, request, now);
    case DeliverGossip(envelope, now) =>
      TakenGenuine(net, Taken(net, step), envelope);
      ServeKeepsGenuine(Taken(net, step), envelope.to, HandleGossip(Some(PeerGossip(envelope.peer))), now);
    case DeliverHold(envelope, now) =>
      TakenGenuine(net, Taken(net, step), envelope);
      ServeKeepsGenuine(Taken(net, step), envelope.to, HoldPeer(envelope.peer), now);
    case Pass(at, now) =>
      PassKeepsGenuine(net, at, now);
  }

  /** What is delivered is genuine too. */
  lemma TakenGenuine(net: Net, less: Net, envelope: Envelope)
    requires Filed(net) && AllGenuine(net) && (envelope in net.gossip || envelope in net.holds)
    requires less.nodes == net.nodes && less.gossip <= net.gossip && less.holds <= net.holds
    ensures Filed(less) && AllGenuine(less) && Genuine(less, envelope.peer)
  {
    SameFiled(net, less);
    hide Filed;
    LessGenuine(net, less);
    hide Genuine;
  }

  lemma LessGenuine(net: Net, less: Net)
    requires AllGenuine(net) && less.nodes == net.nodes && less.gossip <= net.gossip && less.holds <= net.holds
    ensures AllGenuine(less) && forall peer :: Genuine(less, peer) <==> Genuine(net, peer)
  {
    SameGenuine(net, less);
    hide Genuine;
    assert forall e :: e in less.gossip ==> e in net.gossip;
    assert forall e :: e in less.holds ==> e in net.holds;
  }

  lemma PassKeepsGenuine(net: Net, at: Uri, now: u64)
    requires Filed(net) && AllGenuine(net) && Enabled(net, Pass(at, now))
    ensures AllGenuine(Apply(net, Pass(at, now)))
  {
    OwnGenuine(net, at);
    PassEffect(net, at, now);
    EnvelopesCarry(OtherPeers(net.nodes[at]) * net.nodes.Keys, net.nodes[at].thisPeer);
    hide Process;
    hide SelfGossip;
    hide Apply;
    hide Filed;
    hide Genuine;
    hide Envelopes;
    OneNodeGenuine(net, Apply(net, Pass(at, now)), at);
  }

  lemma EnvelopesCarry(to: set<Uri>, peer: PeerData)
    ensures forall e :: e in Envelopes(to, peer) ==> e.to in to && e.peer == peer
  {
  }

  predicate RequestGenuine(net: Net, request: Request) {
    match request
    case HoldPeer(peer) => Genuine(net, peer)
    case HandleGossip(Some(PeerGossip(peer))) => Genuine(net, peer)
    case _ => true
  }

  lemma SameFiled(net: Net, net': Net)
    requires Filed(net) && net'.nodes == net.nodes
    ensures Filed(net')
  {
  }

  lemma OwnGenuine(net: Net, at: Uri)
    requires Filed(net) && at in net.nodes
    ensures Genuine(net, net.nodes[at].thisPeer)
  {
  }

  lemma SameGenuine(net: Net, net': Net)
    requires net'.nodes.Keys == net.nodes.Keys
    requires forall name :: name in net.nodes ==>
               net'.nodes[name].thisPeer.timestamp == net.nodes[name].thisPeer.timestamp
    ensures forall peer :: Genuine(net', peer) <==> Genuine(net, peer)
  {
  }

  lemma ServeKeepsGenuine(net: Net, at: Uri, request: Request, now: u64)
    requires Filed(net) && AllGenuine(net) && at in net.nodes && RequestGenuine(net, request)
    ensures AllGenuine(Serve(net, at, request, now))
  {
    hide Serve;
    hide Filed;
    hide AllGenuine;
    hide Genuine;
    match request
    case HandleGossip(Some(PeerGossip(peer))) => GossipKeepsGenuine(net, at, peer, now);
    case HoldPeer(peer) => HoldKeepsGenuine(net, at, peer, now);
    case _ => OtherKeepsGenuine(net, at, request, now);
  }

  lemma OtherKeepsGenuine(net: Net, at: Uri, request: Request, now: u64)
    requires AllGenuine(net) && at in net.nodes && !AboutPeers(request)
    ensures AllGenuine(Serve(net, at, request, now))
  {
    OtherEffect(net, at, request, now);
    hide Serve;
    hide Handle;
    hide Genuine;
    OneNodeGenuine(net, Serve(net, at, request, now), at);
  }

  /** It suffices that the changed node's records and what is newly in flight are genuine. */
  lemma OneNodeGenuine(net: Net, net': Net, at: Uri)
    requires AllGenuine(net) && at in net.nodes && at in net'.nodes && net'.nodes == net.nodes[at := net'.nodes[at]]
    requires net'.nodes[at].thisPeer.timestamp == net.nodes[at].thisPeer.timestamp
    requires forall name :: name in net'.nodes[at].peers ==> Genuine(net, net'.nodes[at].peers[name])
    requires forall e :: e in net'.gossip ==> e in net.gossip || Genuine(net, e.peer)
    requires forall e :: e in net'.holds ==> e in net.holds || Genuine(net, e.peer)
    ensures AllGenuine(net')
  {
    SameGenuine(net, net');
    hide Genuine;
  }

  lemma GossipKeepsGenuine(net: Net, at: Uri, peer: PeerData, now: u64)
    requires Filed(net) && AllGenuine(net) && at in net.nodes && Genuine(net, peer)
    ensures AllGenuine(Serve(net, at, HandleGossip(Some(PeerGossip(peer))), now))
  {
    GossipEffect(net, at, peer, now);
    AddKeepsGenuine(net, at, peer, now);
    hide Serve;
    hide AddPeer;
    hide Filed;
    hide Genuine;
    OneNodeGenuine(net, Serve(net, at, HandleGossip(Some(PeerGossip(peer))), now), at);
  }

  lemma HoldKeepsGenuine(net: Net, at: Uri, peer: PeerData, now: u64)
    requires Filed(net) && AllGenuine(net) && at in net.nodes && Genuine(net, peer)
    ensures AllGenuine(Serve(net, at, HoldPeer(peer), now))
  {
    HoldEffect(net, at, peer, now);
    if Advances(net.nodes[at], peer) {
      AddKeepsGenuine(net, at, peer, now);
      OwnGenuine(net, at);
      AnnouncedFacts(net, net.nodes[at], peer, AddPeer(net.nodes[at], peer, now).peers[peer.name]);
      hide Serve;
      hide AddPeer;
      hide Filed;
      hide Genuine;
      hide Announced;
      OneNodeGenuine(net, Serve(net, at, HoldPeer(peer), now), at);
    }
  }

  lemma AddKeepsGenuine(net: Net, at: Uri, peer: PeerData, now: u64)
    requires Filed(net) && AllGenuine(net) && at in net.nodes && Genuine(net, peer)
    ensures forall name :: name in AddPeer(net.nodes[at], peer, now).peers ==>
              Genuine(net, AddPeer(net.nodes[at], peer, now).peers[name])
    ensures AddPeer(net.nodes[at], peer, now).thisPeer == net.nodes[at].thisPeer
  {
  }

  ghost predicate HonestRun(net: Net, steps: seq<Step>)
    requires ValidRun(net, steps)
    decreases |steps|
  {
    steps == [] || (Honest(net, steps[0]) && HonestRun(Apply(net, steps[0]), steps[1..]))
  }

  lemma {:induction false} HonestRunGenuine(net: Net, steps: seq<Step>)
    requires Filed(net) && AllGenuine(net) && ValidRun(net, steps) && HonestRun(net, steps)
    ensures AllGenuine(Run(net, steps))
    decreases |steps|
  {
    if steps != [] {
      StepLearns(net, steps[0]);
      StepKeepsGenuine(net, steps[0]);
      hide Apply;
      hide AllGenuine;
      hide Honest;
      HonestRunGenuine(Apply(net, steps[0]), steps[1..]);
    }
  }

  /** If owners hand in each node's record with that node's own timestamp, no timing matters: once quiet,
      all nodes joined by a path list the same nodes with the same timestamps. */
  lemma HonestTablesAgree(net: Net, steps: seq<Step>, from: Uri, path: seq<Uri>, to: Uri, other: Uri)
    requires Start(net) && ValidRun(net, steps) && HonestRun(net, steps) && Quiet(Run(net, steps))
    requires Path(Run(net, steps), from, path, to) && from != to && other != from && other != to
    ensures var end := Run(net, steps);
            (Knows(end, from, other) <==> Knows(end, to, other)) &&
            (Knows(end, from, other) ==>
              end.nodes[from].peers[other].timestamp == end.nodes[to].peers[other].timestamp ==
              end.nodes[other].thisPeer.timestamp)
  {
    EveryoneMeets(net, steps, from, path, to);
    HonestRunGenuine(net, steps);
    StartMeets(net);
    RunKeepsMeeting(net, steps);
    hide Run;
    hide ValidRun;
    hide HonestRun;
    hide Path;
    var end := Run(net, steps);
    if Knows(end, from, other) {
      assert Genuine(end, end.nodes[from].peers[other]) && Genuine(end, end.nodes[to].peers[other]);
    }
  }

  // ----- The flood ends -----

  /** Everything in flight goes to nodes of the network. */
  ghost predicate Addressed(net: Net) {
    (forall e :: e in net.gossip ==> e.to in net.nodes) && (forall e :: e in net.holds ==> e.to in net.nodes)
  }

  ghost function Fact(peer: PeerData): (Uri, u64) {
    (peer.name, peer.timestamp)
  }

  /** What is said in flight or could be said by a node of itself. */
  ghost function Facts(net: Net): set<(Uri, u64)> {
    (set e | e in net.gossip :: Fact(e.peer)) + (set e | e in net.holds :: Fact(e.peer)) +
    (set name | name in net.nodes :: Fact(net.nodes[name].thisPeer))
  }

  predicate InTable(node: Node, fact: (Uri, u64)) {
    fact.0 in node.peers && fact.1 <= node.peers[fact.0].timestamp
  }

  ghost function Missing(net: Net): set<(Uri, (Uri, u64))> {
    set name, fact | name in net.nodes.Keys && fact in Facts(net) && !InTable(net.nodes[name], fact) :: (name, fact)
  }

  ghost function Measure(net: Net): nat {
    (2 * |net.nodes| + 3) * |Missing(net)| + 2 * |net.gossip| + |net.holds|
  }

  predicate Delivery(step: Step) {
    step.DeliverGossip? || step.DeliverHold?
  }

  lemma FanoutSize(to: set<Uri>, peer: PeerData)
    ensures |Envelopes(to, peer)| <= |to|
    decreases |to|
  {
    if to != {} {
      var name :| name in to;
      FanoutSize(to - {name}, peer);
      assert Envelopes(to, peer) == Envelopes(to - {name}, peer) + {Envelope(name, peer)};
    }
  }

  lemma SubsetSize<T>(small: set<T>, large: set<T>)
    requires small <= large
    ensures |small| <= |large|
    ensures small != large ==> |small| < |large|
  {
    assert large == small + (large - small);
    if small != large {
      assert large - small != {};
    }
  }

  lemma AnnouncedSize(net: Net, node: Node, peer: PeerData, record: PeerData)
    ensures |Announced(net, node, peer, record)| <= |net.nodes| + 1
  {
    var known := OtherPeers(node) * net.nodes.Keys;
    FanoutSize(known, record);
    SubsetSize(known, net.nodes.Keys);
    FanoutSize({peer.name} * net.nodes.Keys, node.thisPeer);
    SubsetSize({peer.name} * net.nodes.Keys, {peer.name});
  }

  lemma FactsWithin(net: Net, net': Net)
    requires net'.nodes.Keys == net.nodes.Keys
    requires forall name :: name in net.nodes ==> net'.nodes[name].thisPeer == net.nodes[name].thisPeer
    requires forall e :: e in net'.gossip ==> Fact(e.peer) in Facts(net)
    requires forall e :: e in net'.holds ==> Fact(e.peer) in Facts(net)
    ensures Facts(net') <= Facts(net)
  {
  }

  lemma FlightFacts(net: Net)
    ensures forall e :: e in net.gossip ==> Fact(e.peer) in Facts(net)
    ensures forall e :: e in net.holds ==> Fact(e.peer) in Facts(net)
    ensures forall name :: name in net.nodes ==> Fact(net.nodes[name].thisPeer) in Facts(net)
  {
  }

  lemma AnnouncedFacts(net: Net, node: Node, peer: PeerData, record: PeerData)
    ensures forall e :: e in Announced(net, node, peer, record) ==>
              e.to in net.nodes && (e.peer == record || e.peer == node.thisPeer)
  {
  }

  /** Deliveries say nothing that was not said, and only to nodes of the network. */
  lemma FactsStay(net: Net, step: Step)
    requires Filed(net) && Addressed(net) && Enabled(net, step) && Delivery(step)
    ensures Facts(Apply(net, step)) <= Facts(net) && Addressed(Apply(net, step))
  {
    hide Serve;
    var e, net1, net' := step.envelope, Taken(net, step), Apply(net, step);
    assert Filed(net1) by { SameFiled(net, net1); }
    hide Filed;
    hide SaysNoMore;
    if step.DeliverGossip? {
      GossipSays(net1, e, step.now);
    } else {
      HoldSays(net1, e, step.now);
    }
    assert SaysNoMore(net1, net', e);
    hide Apply;
    LessSaid(net, net1, net', e);
    hide Facts;
    hide Addressed;
    NothingNewSaid(net, net', e);
  }

  lemma LessSaid(net: Net, net1: Net, net': Net, e: Envelope)
    requires SaysNoMore(net1, net', e) && net1.nodes == net.nodes
    requires net1.gossip <= net.gossip && net1.holds <= net.holds
    ensures SaysNoMore(net, net', e)
  {
  }

  /** The new network says what the old one says, or the fact delivered, or what that node is. */
  ghost predicate SaysNoMore(net: Net, net': Net, e: Envelope) {
    e.to in net.nodes && net'.nodes.Keys == net.nodes.Keys &&
    (forall name :: name in net.nodes ==> net'.nodes[name].thisPeer == net.nodes[name].thisPeer) &&
    (forall sent :: sent in net'.gossip ==>
      sent in net.gossip ||
      (sent.to in net.nodes &&
       (Fact(sent.peer) == Fact(e.peer) || Fact(sent.peer) == Fact(net.nodes[e.to].thisPeer)))) &&
    (forall sent :: sent in net'.holds ==> sent in net.holds || sent == e)
  }

  lemma NothingNewSaid(net: Net, net': Net, e: Envelope)
    requires Addressed(net) && (e in net.gossip || e in net.holds) && SaysNoMore(net, net', e)
    ensures Facts(net') <= Facts(net) && Addressed(net')
  {
    FlightFacts(net);
    hide Facts;
    FactsWithin(net, net');
  }

  lemma GossipSays(net: Net, e: Envelope, now: u64)
    requires e.to in net.nodes
    ensures SaysNoMore(net, Serve(net, e.to, HandleGossip(Some(PeerGossip(e.peer))), now), e)
  {
    GossipEffect(net, e.to, e.peer, now);
  }

  lemma HoldSays(net: Net, e: Envelope, now: u64)
    requires Filed(net) && e.to in net.nodes
    ensures SaysNoMore(net, Serve(net, e.to, HoldPeer(e.peer), now), e)
  {
    var node := net.nodes[e.to];
    HoldEffect(net, e.to, e.peer, now);
    hide Serve;
    if Advances(node, e.peer) {
      var node' := AddPeer(node, e.peer, now);
      var record := node'.peers[e.peer.name];
      assert Fact(record) == Fact(e.peer) && node'.thisPeer == node.thisPeer;
      hide SaysNoMore;
      SaidBy(net, e, node', record);
    }
  }

  lemma SaidBy(net: Net, e: Envelope, node': Node, record: PeerData)
    requires e.to in net.nodes && node'.thisPeer == net.nodes[e.to].thisPeer && Fact(record) == Fact(e.peer)
    ensures SaysNoMore(net, net.(nodes := net.nodes[e.to := node'],
                                 gossip := net.gossip + Announced(net, net.nodes[e.to], e.peer, record)), e)
  {
    AnnouncedFacts(net, net.nodes[e.to], e.peer, record);
    hide Announced;
  }

  lemma MissingShrinks(net: Net, step: Step)
    requires Filed(net) && Addressed(net) && Enabled(net, step) && Delivery(step)
    ensures Missing(Apply(net, step)) <= Missing(net)
    ensures step.DeliverHold? && Advances(net.nodes[step.envelope.to], step.envelope.peer) ==>
              |Missing(Apply(net, step))| < |Missing(net)|
  {
    var net' := Apply(net, step);
    FactsStay(net, step);
    StepLearns(net, step);
    if step.DeliverHold? && Advances(net.nodes[step.envelope.to], step.envelope.peer) {
      HoldingTells(net, step, step.envelope.peer);
    }
    hide Apply;
    hide Facts;
    hide Filed;
    hide Addressed;
    hide Covered;
    LessMissing(net, net', Site(step));
    if step.DeliverHold? && Advances(net.nodes[step.envelope.to], step.envelope.peer) {
      var e := step.envelope;
      InFlight(net, e);
      assert (e.to, Fact(e.peer)) in Missing(net) && (e.to, Fact(e.peer)) !in Missing(net');
      SubsetSize(Missing(net'), Missing(net));
    }
  }

  lemma LessMissing(net: Net, net': Net, at: Uri)
    requires LearnsAt(net, net', at) && Facts(net') <= Facts(net)
    ensures Missing(net') <= Missing(net)
  {
    hide Facts;
    hide Filed;
  }

  lemma InFlight(net: Net, e: Envelope)
    requires e in net.holds
    ensures Fact(e.peer) in Facts(net)
  {
  }

  lemma GossipSizes(net: Net, step: Step)
    requires Enabled(net, step) && step.DeliverGossip?
    ensures var net' := Apply(net, step);
            |net'.nodes| == |net.nodes| && |net'.gossip| == |net.gossip| - 1 && |net'.holds| <= |net.holds| + 1
  {
    var e := step.envelope;
    GossipEffect(Taken(net, step), e.to, e.peer, step.now);
    hide Serve;
    assert net.nodes[e.to := net.nodes[e.to]] == net.nodes;
    assert Apply(net, step).nodes.Keys == net.nodes.Keys;
  }

  lemma HoldSizes(net: Net, step: Step)
    requires Enabled(net, step) && step.DeliverHold?
    ensures var net' := Apply(net, step);
            |net'.nodes| == |net.nodes| && |net'.holds| == |net.holds| - 1 &&
            |net'.gossip| <= |net.gossip| +
              if Advances(net.nodes[step.envelope.to], step.envelope.peer) then |net.nodes| + 1 else 0
  {
    var e, net1 := step.envelope, Taken(net, step);
    var node := net.nodes[e.to];
    HoldEffect(net1, e.to, e.peer, step.now);
    hide Serve;
    assert Apply(net, step).nodes.Keys == net.nodes.Keys;
    if Advances(node, e.peer) {
      AnnouncedSize(net1, node, e.peer, AddPeer(node, e.peer, step.now).peers[e.peer.name]);
    }
  }

  /** Every delivery shrinks the measure: a hold is passed on only when a table grows. */
  lemma DeliveryShrinks(net: Net, step: Step)
    requires Filed(net) && Addressed(net) && Enabled(net, step) && Delivery(step)
    ensures Measure(Apply(net, step)) < Measure(net)
  {
    var net' := Apply(net, step);
    MissingShrinks(net, step);
    SubsetSize(Missing(net'), Missing(net));
    hide Missing;
    hide Apply;
    hide Measure;
    hide Filed;
    hide Addressed;
    if step.DeliverGossip? {
      GossipSizes(net, step);
    } else {
      HoldSizes(net, step);
    }
    Lighter(net, net');
  }

  lemma Lighter(net: Net, net': Net)
    requires |net'.nodes| == |net.nodes| && |Missing(net')| <= |Missing(net)|
    requires 2 * |net'.gossip| + |net'.holds| <
             2 * |net.gossip| + |net.holds| +
             if |Missing(net')| < |Missing(net)| then 2 * |net.nodes| + 3 else 0
    ensures Measure(net') < Measure(net)
  {
    var weight, few, many := 2 * |net.nodes| + 3, |Missing(net')|, |Missing(net)|;
    hide Missing;
    if few < many {
      Times(weight, few + 1, many);
      assert weight * (few + 1) == weight * few + weight;
    }
  }

  lemma Times(k: nat, small: nat, large: nat)
    requires small <= large
    ensures k * small <= k * large
  {
  }

  lemma DeliveryKeeps(net: Net, step: Step)
    requires Filed(net) && Addressed(net) && Enabled(net, step) && Delivery(step)
    ensures var net' := Apply(net, step); Filed(net') && Addressed(net') && Measure(net') < Measure(net)
  {
    hide Apply;
    hide Measure;
    hide Filed;
    hide Addressed;
    FactsStay(net, step);
    StepLearns(net, step);
    DeliveryShrinks(net, step);
  }

  /** From the last request or pass on only so many deliveries can happen. */
  lemma {:induction false} FloodIsBounded(net: Net, steps: seq<Step>)
    requires Filed(net) && Addressed(net) && ValidRun(net, steps) && forall i :: 0 <= i < |steps| ==> Delivery(steps[i])
    ensures |steps| <= Measure(net)
    decreases |steps|
  {
    if steps != [] {
      hide Apply;
      hide Measure;
      hide Filed;
      hide Addressed;
      hide Enabled;
      DeliveryKeeps(net, steps[0]);
      FloodIsBounded(Apply(net, steps[0]), steps[1..]);
    }
  }

  lemma SomeDelivery(net: Net, now: u64) returns (step: Step)
    requires Addressed(net) && !Quiet(net)
    ensures Enabled(net, step) && Delivery(step)
  {
    if e :| e in net.gossip {
      step := DeliverGossip(e, now);
    } else {
      var e :| e in net.holds;
      step := DeliverHold(e, now);
    }
  }

  lemma Prepend(net: Net, step: Step, rest: seq<Step>)
    requires Enabled(net, step) && ValidRun(Apply(net, step), rest)
    ensures ValidRun(net, [step] + rest) && Run(net, [step] + rest) == Run(Apply(net, step), rest)
  {
    hide Apply;
    hide Enabled;
    assert ([step] + rest)[1..] == rest;
  }

  /** And the flood can always run until nothing is in flight. */
  lemma {:induction false} FloodSettles(net: Net, now: u64) returns (steps: seq<Step>)
    requires Filed(net) && Addressed(net)
    ensures ValidRun(net, steps) && Quiet(Run(net, steps)) && forall i :: 0 <= i < |steps| ==> Delivery(steps[i])
    decreases Measure(net)
  {
    if Quiet(net) {
      steps := [];
      assert ValidRun(net, []) && Run(net, []) == net;
    } else {
      hide Apply;
      hide Measure;
      hide Filed;
      hide Addressed;
      hide Enabled;
      hide Delivery;
      var step := SomeDelivery(net, now);
      DeliveryKeeps(net, step);
      hide Quiet;
      hide Run;
      hide ValidRun;
      var rest := FloodSettles(Apply(net, step), now);
      Prepend(net, step, rest);
      steps := [step] + rest;
    }
  }

  lemma StepKeepsAddressed(net: Net, step: Step)
    requires Filed(net) && Addressed(net) && Enabled(net, step)
    ensures Addressed(Apply(net, step))
  {
    hide Serve;
    match Asked(step)
    case Some(request) =>
      var net1 := Taken(net, step);
      SameFiled(net, net1);
      LessAddressed(net, net1);
      hide Filed;
      hide Addressed;
      ServeKeepsAddressed(net1, Site(step), request, step.now);
    case None =>
      PassKeepsAddressed(net, step.at, step.now);
  }

  lemma LessAddressed(net: Net, less: Net)
    requires Addressed(net) && less.nodes == net.nodes && less.gossip <= net.gossip && less.holds <= net.holds
    ensures Addressed(less)
  {
    assert forall e :: e in less.gossip ==> e in net.gossip;
    assert forall e :: e in less.holds ==> e in net.holds;
  }

  lemma PassKeepsAddressed(net: Net, at: Uri, now: u64)
    requires Addressed(net) && Enabled(net, Pass(at, now))
    ensures Addressed(Apply(net, Pass(at, now)))
  {
    PassEffect(net, at, now);
    EnvelopesCarry(OtherPeers(net.nodes[at]) * net.nodes.Keys, net.nodes[at].thisPeer);
    hide Process;
    hide SelfGossip;
    hide Envelopes;
    hide Apply;
  }

  lemma ServeKeepsAddressed(net: Net, at: Uri, request: Request, now: u64)
    requires Filed(net) && Addressed(net) && at in net.nodes
    ensures Addressed(Serve(net, at, request, now))
  {
    hide Serve;
    match request
    case HandleGossip(Some(PeerGossip(peer))) => GossipSays(net, Envelope(at, peer), now);
    case HoldPeer(peer) => HoldSays(net, Envelope(at, peer), now);
    case _ => OtherEffect(net, at, request, now);
  }

  lemma {:induction false} RunKeepsAddressed(net: Net, steps: seq<Step>)
    requires Filed(net) && Addressed(net) && ValidRun(net, steps)
    ensures Addressed(Run(net, steps))
    decreases |steps|
  {
    if steps != [] {
      StepLearns(net, steps[0]);
      hide Apply;
      hide Addressed;
      StepKeepsAddressed(net, steps[0]);
      RunKeepsAddressed(Apply(net, steps[0]), steps[1..]);
    }
  }

  /** After any run the deliveries still due, and no more requests, suffice for everyone joined by a path
      to know each other. */
  lemma DeliveriesSuffice(net: Net, steps: seq<Step>, now: u64) returns (more: seq<Step>)
    requires Start(net) && ValidRun(net, steps)
    ensures ValidRun(Run(net, steps), more) && forall i :: 0 <= i < |more| ==> Delivery(more[i])
    ensures var end := Run(Run(net, steps), more);
            Quiet(end) && forall from, path, to :: Path(end, from, path, to) && from != to ==> Knows(end, from, to)
  {
    StartMeets(net);
    RunKeepsMeeting(net, steps);
    RunKeepsAddressed(net, steps);
    var mid := Run(net, steps);
    more := FloodSettles(mid, now);
    RunKeepsMeeting(mid, more);
    var end := Run(mid, more);
    hide Meeting;
    hide Run;
    hide ValidRun;
    forall from, path, to | Path(end, from, path, to) && from != to ensures Knows(end, from, to) {
      MeshAlong(end, from, path, to);
    }
  }

  // ----- A peer outside the network -----

  function Fresh(name: Uri, config: Config): Node {
    Node(map[], map[], map[], PeerData(name, name, 1), 0, config)
  }

  function Own(name: Uri): PeerData {
    PeerData(name, name, 1)
  }

  function With(node: Node, peer: PeerData): Node {
    node.(peers := node.peers[peer.name := peer], timedOut := node.timedOut[peer.name := false])
  }

  /** Node `a` holds outsider `x`, and only then gets to know node `b`. */
  function Lateness(a: Uri, b: Uri, x: Uri): seq<Step> {
    [Ask(a, HoldPeer(Own(x)), 0), Ask(a, HoldPeer(Own(b)), 0), DeliverGossip(Envelope(b, Own(a)), 0),
     DeliverHold(Envelope(b, Own(a)), 0), DeliverGossip(Envelope(a, Own(b)), 0)]
  }

  /** Two nodes and what travels between them. */
  function Two(a: Uri, nodeA: Node, b: Uri, nodeB: Node, gossip: multiset<Envelope>, holds: multiset<Envelope>): Net {
    Net(map[a := nodeA, b := nodeB], gossip, holds)
  }

  /** `a` is asked to hold a new peer while knowing no node: only the peer, if it is `b`, is told. */
  lemma HoldsFirst(a: Uri, nodeA: Node, b: Uri, nodeB: Node, peer: PeerData)
    requires a != b && nodeA.thisPeer == Own(a) && b !in nodeA.peers && a !in nodeA.peers
    requires peer.name !in nodeA.peers && peer.name != a
    ensures Serve(Two(a, nodeA, b, nodeB, multiset{}, multiset{}), a, HoldPeer(peer), 0) ==
            Two(a, With(nodeA, peer), b, nodeB,
                if peer.name == b then multiset{Envelope(b, Own(a))} else multiset{}, multiset{})
  {
    var net, nodeA' := Two(a, nodeA, b, nodeB, multiset{}, multiset{}), With(nodeA, peer);
    assert AddPeer(nodeA, peer, 0) == nodeA' && nodeA'.peers[peer.name] == peer && Advances(nodeA, peer);
    FirstAnnounced(a, nodeA, b, nodeB, peer);
    HoldEffect(net, a, peer, 0);
    hide Serve;
    hide AddPeer;
    hide Announced;
    assert net.nodes[a := nodeA'] == map[a := nodeA', b := nodeB];
    var told := Announced(net, nodeA, peer, peer);
    assert multiset{} + told == told;
  }

  lemma FirstAnnounced(a: Uri, nodeA: Node, b: Uri, nodeB: Node, peer: PeerData)
    requires a != b && nodeA.thisPeer == Own(a) && b !in nodeA.peers && peer.name != a
    ensures Announced(Two(a, nodeA, b, nodeB, multiset{}, multiset{}), nodeA, peer, peer) ==
            if peer.name == b then multiset{Envelope(b, Own(a))} else multiset{}
  {
    var keys := Two(a, nodeA, b, nodeB, multiset{}, multiset{}).nodes.Keys;
    assert Envelopes(OtherPeers(nodeA) * keys, peer) == {};
    assert Envelopes({peer.name} * keys, Own(a)) == if peer.name == b then {Envelope(b, Own(a))} else {};
  }

  /** The network is the same whichever node is named first. */
  lemma Swapped(a: Uri, nodeA: Node, b: Uri, nodeB: Node, gossip: multiset<Envelope>, holds: multiset<Envelope>)
    requires a != b
    ensures Two(a, nodeA, b, nodeB, gossip, holds) == Two(b, nodeB, a, nodeA, gossip, holds)
  {
  }

  /** `b` hears of `a`: if it is new, the owner is asked to hold it, else nothing happens. */
  lemma HearsOf(a: Uri, nodeA: Node, b: Uri, nodeB: Node)
    requires a != b && nodeB.thisPeer == Own(b) && (a in nodeB.peers ==> nodeB.peers[a] == Own(a))
    ensures Apply(Two(a, nodeA, b, nodeB, multiset{Envelope(b, Own(a))}, multiset{}),
                  DeliverGossip(Envelope(b, Own(a)), 0)) ==
            Two(a, nodeA, b, nodeB, multiset{}, if a in nodeB.peers then multiset{} else multiset{Envelope(b, Own(a))})
  {
    var net, step := Two(a, nodeA, b, nodeB, multiset{Envelope(b, Own(a))}, multiset{}),
                     DeliverGossip(Envelope(b, Own(a)), 0);
    GossipEffect(Taken(net, step), b, Own(a), 0);
    hide Serve;
    assert net.nodes[b := nodeB] == net.nodes;
  }

  lemma TakeStep(net: Net, steps: seq<Step>, k: nat, net': Net)
    requires k < |steps| && Enabled(net, steps[k]) && Apply(net, steps[k]) == net' && ValidRun(net', steps[k + 1..])
    ensures ValidRun(net, steps[k..]) && Run(net, steps[k..]) == Run(net', steps[k + 1..])
  {
    assert steps[k..][0] == steps[k] && steps[k..][1..] == steps[k + 1..];
  }

  lemma LateRun(a: Uri, b: Uri, x: Uri, config: Config)
    requires a != b && x != a && x != b
    ensures var net := Two(a, Fresh(a, config), b, Fresh(b, config), multiset{}, multiset{});
            ValidRun(net, Lateness(a, b, x)) &&
            Run(net, Lateness(a, b, x)) ==
              Two(a, With(With(Fresh(a, config), Own(x)), Own(b)), b, With(Fresh(b, config), Own(a)),
                  multiset{}, multiset{})
  {
    var steps, nodeA, nodeB := Lateness(a, b, x), Fresh(a, config), Fresh(b, config);
    var a1, b1 := With(nodeA, Own(x)), With(nodeB, Own(a));
    var a2 := With(a1, Own(b));
    var toA, toB := multiset{Envelope(a, Own(b))}, multiset{Envelope(b, Own(a))};
    var net0 := Two(a, nodeA, b, nodeB, multiset{}, multiset{});
    var net1 := Two(a, a1, b, nodeB, multiset{}, multiset{});
    var net2 := Two(a, a2, b, nodeB, toB, multiset{});
    var net3 := Two(a, a2, b, nodeB, multiset{}, toB);
    var net4 := Two(a, a2, b, b1, toA, multiset{});
    var net5 := Two(a, a2, b, b1, multiset{}, multiset{});
    HoldsFirst(a, nodeA, b, nodeB, Own(x));
    HoldsFirst(a, a1, b, nodeB, Own(b));
    HearsOf(a, a2, b, nodeB);
    HoldsFirst(b, nodeB, a, a2, Own(a));
    HearsOf(b, b1, a, a2);
    Swapped(a, a2, b, nodeB, multiset{}, multiset{});
    Swapped(a, a2, b, b1, toA, multiset{});
    Swapped(a, a2, b, b1, multiset{}, multiset{});
    hide Serve;
    assert Taken(net3, steps[3]) == Two(a, a2, b, nodeB, multiset{}, multiset{});
    assert Apply(net0, steps[0]) == net1 && Apply(net1, steps[1]) == net2 && Apply(net2, steps[2]) == net3;
    assert Apply(net3, steps[3]) == net4 && Apply(net4, steps[4]) == net5;
    hide Apply;
    assert steps[5..] == [] && steps[0..] == steps && ValidRun(net5, []);
    TakeStep(net4, steps, 4, net5);
    TakeStep(net3, steps, 3, net4);
    TakeStep(net2, steps, 2, net3);
    TakeStep(net1, steps, 1, net2);
    TakeStep(net0, steps, 0, net1);
  }

  /** Only nodes speak for themselves: a peer that is no node of the network is not passed on to nodes
      learned later, so neighbours may disagree on it for good. */
  lemma LatePeerMissesOutsider(a: Uri, b: Uri, x: Uri, config: Config)
    requires a != b && x != a && x != b
    ensures var net := Two(a, Fresh(a, config), b, Fresh(b, config), multiset{}, multiset{});
            Start(net) && ValidRun(net, Lateness(a, b, x)) &&
            var end := Run(net, Lateness(a, b, x));
            Quiet(end) && Knows(end, a, b) && Knows(end, b, a) && !Agree(end, a, b)
  {
    hide ValidRun;
    hide Run;
    LateRun(a, b, x, config);
    var end := Run(Two(a, Fresh(a, config), b, Fresh(b, config), multiset{}, multiset{}), Lateness(a, b, x));
    assert x in end.nodes[a].peers && x !in end.nodes[b].peers;
  }
}
