/** One MirrorDht node: the full-sync DHT that holds everything and mirrors it back to every known
    peer. `Node` is the state a node keeps; the functions below say what each request does to it and
    which commands it publishes to its owner; the class `MirrorDht` is the actor that updates its
    fields in place and is proved against those functions. */
module MirrorDht {
  import opened Wrappers

  type Uri(==, !new)
  type EntryHash(==, !new)
  type AspectHash(==, !new)

  const U64_MODULUS := 0x1_0000_0000_0000_0000
  type u64 = x: int | 0 <= x < U64_MODULUS

  /** `now - since` on u64, which wraps when `since` lies in the future. */
  function Elapsed(now: u64, since: u64): u64 {
    if since <= now then now - since else now - since + U64_MODULUS
  }

  datatype PeerData = PeerData(name: Uri, location: Uri, timestamp: u64)

  /** An aspect is named by its address; of its content only the length matters to the DHT. */
  datatype Aspect = Aspect(address: AspectHash, len: nat)
  datatype EntryData = EntryData(address: EntryHash, aspects: seq<Aspect>)

  datatype Gossip = EntryGossip(entry: EntryData) | PeerGossip(peer: PeerData)

  /** Requests the owner sends to the node. A gossip bundle that does not deserialize is `None`. */
  datatype Request =
    | HandleGossip(bundle: Option<Gossip>)
    | HoldPeer(peer: PeerData)
    | HoldEntryAspectAddress(entry: EntryData)
    | BroadcastEntry(entry: EntryData)
    | DropEntryAddress(address: EntryHash)
    | UpdateAdvertise(location: Uri)
    | RequestPeer(name: Uri)
    | RequestPeerList
    | RequestThisPeer
    | RequestEntryAddressList
    | RequestAspectsOf(address: EntryHash)
    | FetchEntry(address: EntryHash)

  /** Commands the node publishes to its owner. Recipient lists come from hash map keys, so they
      are sets. */
  datatype Command =
    | GossipTo(peers: set<Uri>, bundle: Gossip)
    | HoldEntryRequested(from: Uri, entry: EntryData)
    | HoldPeerRequested(peer: PeerData)
    | PeerTimedOut(name: Uri)
    | RequestEntry(address: EntryHash)
    | ForwardFetch(address: EntryHash)

  /** What a read-only request is answered with. Lists come from hash maps, so they are sets. */
  datatype Answer =
    | NoAnswer
    | PeerAnswer(found: Option<PeerData>)
    | PeerListAnswer(peers: set<PeerData>)
    | ThisPeerAnswer(peer: PeerData)
    | EntryListAnswer(addresses: set<EntryHash>)
    | AspectsAnswer(aspects: Option<set<AspectHash>>)

  datatype Config = Config(gossipInterval: u64, timeoutThreshold: u64)

  datatype Node = Node(
    entries: map<EntryHash, set<AspectHash>>,
    peers: map<Uri, PeerData>,
    timedOut: map<Uri, bool>,
    thisPeer: PeerData,
    lastGossip: u64,
    config: Config)

  /** What handling one request does: the new node, what it publishes and answers, and whether it
      succeeded. */
  datatype Reply = Reply(node: Node, commands: seq<Command>, answer: Answer, ok: bool)

  function Publishes(node: Node, commands: seq<Command>): Reply {
    Reply(node, commands, NoAnswer, true)
  }

  function Answers(node: Node, answer: Answer): Reply {
    Reply(node, [], answer, true)
  }

  // ----- Entries -----

  function AspectSet(entry: EntryData): set<AspectHash> {
    set aspect | aspect in entry.aspects :: aspect.address
  }

  function Held(node: Node, address: EntryHash): set<AspectHash> {
    if address in node.entries then node.entries[address] else {}
  }

  function DiffAspects(node: Node, entry: EntryData): set<AspectHash> {
    AspectSet(entry) - Held(node, entry.address)
  }

  function AddEntryAspects(node: Node, entry: EntryData): Node {
    if DiffAspects(node, entry) == {} then node
    else node.(entries := node.entries[entry.address := Held(node, entry.address) + DiffAspects(node, entry)])
  }

  /** Storing an entry adds its aspects to that entry and changes nothing else a node holds. */
  lemma StoredAspects(node: Node, entry: EntryData, address: EntryHash)
    ensures Held(AddEntryAspects(node, entry), address) ==
              Held(node, address) + (if address == entry.address then AspectSet(entry) else {})
    ensures DiffAspects(node, entry) == {} <==> AspectSet(entry) <= Held(node, entry.address)
  {
    if DiffAspects(node, entry) == {} {
      forall aspect | aspect in AspectSet(entry) ensures aspect in Held(node, entry.address) {
        assert aspect !in DiffAspects(node, entry);
      }
    }
  }

  /** "Shallow": the owner names aspects without their content. */
  predicate Shallow(entry: EntryData) {
    |entry.aspects| > 0 && entry.aspects[0].len == 0
  }

  // ----- Peers -----

  function OtherPeers(node: Node): set<Uri> {
    node.peers.Keys - {node.thisPeer.name}
  }

  function GetPeer(node: Node, name: Uri): Option<PeerData> {
    if name == node.thisPeer.name then Some(node.thisPeer)
    else if name in node.peers then Some(node.peers[name])
    else None
  }

  /** True exactly when the peer is new or its timestamp is strictly newer. */
  predicate Advances(node: Node, peer: PeerData) {
    peer.name !in node.peers || node.peers[peer.name].timestamp < peer.timestamp
  }

  /** A refresh moves the timestamp but keeps the location first recorded. */
  function AddPeer(node: Node, peer: PeerData, now: u64): Node {
    if peer.name !in node.peers then
      node.(peers := node.peers[peer.name := peer], timedOut := node.timedOut[peer.name := false])
    else if peer.timestamp <= node.peers[peer.name].timestamp then node
    else
      var refreshed := node.peers[peer.name].(timestamp := peer.timestamp);
      node.(peers := node.peers[peer.name := refreshed],
            timedOut := if Elapsed(now, peer.timestamp) < node.config.timeoutThreshold
                        then node.timedOut[peer.name := false] else node.timedOut)
  }

  // ----- Requests -----

  function Handle(node: Node, request: Request, now: u64): Reply {
    match request
    case HandleGossip(None) => Reply(node, [], NoAnswer, false)
    case HandleGossip(Some(EntryGossip(entry))) =>
      Publishes(node, if DiffAspects(node, entry) == {} then [] else [HoldEntryRequested(node.thisPeer.name, entry)])
    case HandleGossip(Some(PeerGossip(peer))) =>
      (match GetPeer(node, peer.name)
       case None => Publishes(node, [HoldPeerRequested(peer)])
       case Some(known) => Publishes(if peer.timestamp > known.timestamp then AddPeer(node, peer, now) else node, []))
    case HoldPeer(peer) =>
      if !Advances(node, peer) then Publishes(node, [])
      else
        var node' := AddPeer(node, peer, now);
        Publishes(node',
                  [GossipTo(OtherPeers(node), PeerGossip(node'.peers[peer.name]))] +
                  (if peer.name == node.thisPeer.name then [] else [GossipTo({peer.name}, PeerGossip(node.thisPeer))]))
    case HoldEntryAspectAddress(entry) =>
      if Shallow(entry) then Publishes(node, [RequestEntry(entry.address)]) else Store(node, entry)
    case BroadcastEntry(entry) => Store(node, entry)
    case DropEntryAddress(_) => Publishes(node, [])
    case UpdateAdvertise(location) => Publishes(node.(thisPeer := node.thisPeer.(location := location)), [])
    case RequestPeer(name) => Answers(node, PeerAnswer(GetPeer(node, name)))
    case RequestPeerList => Answers(node, PeerListAnswer(node.peers.Values))
    case RequestThisPeer => Answers(node, ThisPeerAnswer(node.thisPeer))
    case RequestEntryAddressList => Answers(node, EntryListAnswer(node.entries.Keys))
    case RequestAspectsOf(address) =>
      Answers(node, AspectsAnswer(if address in node.entries then Some(node.entries[address]) else None))
    case FetchEntry(address) => Publishes(node, [ForwardFetch(address)])
  }

  /** Record the aspects; gossip the entry to every other peer only if something was new. */
  function Store(node: Node, entry: EntryData): Reply {
    if DiffAspects(node, entry) == {} then Publishes(node, [])
    else Publishes(AddEntryAspects(node, entry), [GossipTo(OtherPeers(node), EntryGossip(entry))])
  }

  /** What is left of a reply when the owner is gone: the state change, and an error at the first
      thing to send. */
  function Unheard(reply: Reply): Reply {
    Reply(reply.node, [], NoAnswer, reply.ok && reply.commands == [] && reply.answer.NoAnswer?)
  }

  // ----- Periodic processing -----

  /** Every known peer has a timed-out flag. */
  ghost predicate KeysAgree(node: Node) {
    node.peers.Keys == node.timedOut.Keys
  }

  lemma HandleKeepsKeys(node: Node, request: Request, now: u64)
    requires KeysAgree(node)
    ensures var r := Handle(node, request, now).node;
            KeysAgree(r) && r.config == node.config && r.thisPeer.name == node.thisPeer.name
  {
  }

  /** Peers a processing pass at `now` reports as timed out. */
  function Expiring(node: Node, now: u64): set<Uri>
    requires KeysAgree(node)
  {
    set name | name in node.peers && name != node.thisPeer.name && !node.timedOut[name] &&
               Elapsed(now, node.peers[name].timestamp) > node.config.timeoutThreshold
  }

  function Process(node: Node, now: u64): Node
    requires KeysAgree(node)
  {
    node.(timedOut := node.timedOut + (map name | name in Expiring(node, now) :: true),
          lastGossip := if Elapsed(now, node.lastGossip) > node.config.gossipInterval then now else node.lastGossip)
  }

  function SelfGossip(node: Node, now: u64): seq<Command> {
    if Elapsed(now, node.lastGossip) > node.config.gossipInterval && OtherPeers(node) != {}
    then [GossipTo(OtherPeers(node), PeerGossip(node.thisPeer))] else []
  }

  function TimeoutCommands(names: seq<Uri>): seq<Command> {
    seq(|names|, i requires 0 <= i < |names| => PeerTimedOut(names[i]))
  }

  /** `names` enumerates `s`, each member once. */
  ghost predicate Lists(names: seq<Uri>, s: set<Uri>) {
    (forall name :: name in names <==> name in s) &&
    (forall i, j :: 0 <= i < j < |names| ==> names[i] != names[j])
  }

  /** The actor. `Valid` is what the lookup of a flag in `CollectTimedOut` rests on: it cannot fail. */
  class MirrorDht {
    var entries: map<EntryHash, set<AspectHash>>
    var peers: map<Uri, PeerData>
    var timedOut: map<Uri, bool>
    var thisPeer: PeerData
    var lastGossip: u64
    const config: Config

    function State(): Node
      reads this
    {
      Node(entries, peers, timedOut, thisPeer, lastGossip, config)
    }

    ghost predicate Valid()
      reads this
    {
      KeysAgree(State())
    }

    constructor (config: Config, thisPeer: PeerData, now: u64)
      ensures Valid()
      ensures State() == Node(map[], map[], map[], thisPeer, now, config)
    {
      this.config := config;
      this.thisPeer := thisPeer;
      entries, peers, timedOut, lastGossip := map[], map[], map[], now;
    }

    method AddKnownPeer(peer: PeerData, now: u64) returns (advanced: bool)
      requires Valid()
      modifies this`peers, this`timedOut
      ensures Valid() && State() == AddPeer(old(State()), peer, now)
      ensures advanced == Advances(old(State()), peer)
    {
      if peer.name !in peers {
        peers := peers[peer.name := peer];
        timedOut := timedOut[peer.name := false];
        return true;
      }
      var known := peers[peer.name];
      if peer.timestamp <= known.timestamp {
        return false;
      }
      peers := peers[peer.name := known.(timestamp := peer.timestamp)];
      if Elapsed(now, peer.timestamp) < config.timeoutThreshold {
        timedOut := timedOut[peer.name := false];
      }
      return true;
    }

    method AddAspects(entry: EntryData) returns (grew: bool)
      requires Valid()
      modifies this`entries
      ensures Valid() && State() == AddEntryAspects(old(State()), entry)
      ensures grew == (DiffAspects(old(State()), entry) != {})
    {
      var diff := DiffAspects(State(), entry);
      if diff == {} {
        return false;
      }
      var known := if entry.address in entries then entries[entry.address] + diff else diff;
      assert known == Held(State(), entry.address) + diff;
      entries := entries[entry.address := known];
      return true;
    }

    /** `open` says whether the owner still listens. */
    method HandleRequestFromParent(request: Request, now: u64, open: bool)
      returns (published: seq<Command>, answer: Answer, ok: bool)
      requires Valid()
      modifies this
      ensures Valid()
      ensures var reply := Handle(old(State()), request, now);
              Reply(State(), published, answer, ok) == if open then reply else Unheard(reply)
    {
      published, answer, ok := Serve(request, now);
      if !open && (published != [] || answer != NoAnswer) {
        published, answer, ok := [], NoAnswer, false;
      }
    }

    method Serve(request: Request, now: u64) returns (published: seq<Command>, answer: Answer, ok: bool)
      requires Valid()
      modifies this
      ensures Valid() && Reply(State(), published, answer, ok) == Handle(old(State()), request, now)
    {
      published, answer, ok := [], NoAnswer, true;
      match request
      case HandleGossip(None) =>
        ok := false;
      case HandleGossip(Some(EntryGossip(entry))) =>
        if DiffAspects(State(), entry) != {} {
          published := [HoldEntryRequested(thisPeer.name, entry)];
        }
      case HandleGossip(Some(PeerGossip(peer))) =>
        var known := GetPeer(State(), peer.name);
        if known.None? {
          published := [HoldPeerRequested(peer)];
        } else if peer.timestamp > known.value.timestamp {
          var _ := AddKnownPeer(peer, now);
        }
      case HoldPeer(peer) =>
        var others := OtherPeers(State());
        var advanced := AddKnownPeer(peer, now);
        if advanced {
          published := [GossipTo(others, PeerGossip(peers[peer.name]))];
          if peer.name != thisPeer.name {
            published := published + [GossipTo({peer.name}, PeerGossip(thisPeer))];
          }
        }
      case HoldEntryAspectAddress(entry) =>
        if Shallow(entry) {
          published := [RequestEntry(entry.address)];
        } else {
          var grew := AddAspects(entry);
          if grew {
            published := [GossipTo(OtherPeers(State()), EntryGossip(entry))];
          }
        }
      case BroadcastEntry(entry) =>
        var grew := AddAspects(entry);
        if grew {
          published := [GossipTo(OtherPeers(State()), EntryGossip(entry))];
        }
      case DropEntryAddress(_) =>
      case UpdateAdvertise(location) =>
        thisPeer := thisPeer.(location := location);
      case RequestPeer(name) =>
        answer := PeerAnswer(GetPeer(State(), name));
      case RequestPeerList =>
        answer := PeerListAnswer(peers.Values);
      case RequestThisPeer =>
        answer := ThisPeerAnswer(thisPeer);
      case RequestEntryAddressList =>
        answer := EntryListAnswer(entries.Keys);
      case RequestAspectsOf(address) =>
        answer := AspectsAnswer(if address in entries then Some(entries[address]) else None);
      case FetchEntry(address) =>
        published := [ForwardFetch(address)];
    }

    /** Walk the peers in any order and report each newly expired one once. */
    method CollectTimedOut(now: u64) returns (outbox: seq<Command>, names: seq<Uri>)
      requires Valid()
      ensures Lists(names, Expiring(State(), now))
      ensures outbox == TimeoutCommands(names)
    {
      outbox, names := [], [];
      var todo := peers.Keys;
      ghost var visited: set<Uri> := {};
      ghost var expiring := Expiring(State(), now);
      while todo != {}
        invariant todo !! visited && todo + visited == peers.Keys
        invariant Lists(names, expiring * visited)
        invariant outbox == TimeoutCommands(names)
        decreases todo
      {
        var name :| name in todo;
        todo, visited := todo - {name}, visited + {name};
        if name != thisPeer.name && !timedOut[name] && Elapsed(now, peers[name].timestamp) > config.timeoutThreshold {
          assert forall i :: 0 <= i < |names| ==> names[i] in names;
          outbox, names := outbox + [PeerTimedOut(name)], names + [name];
        }
      }
      assert expiring * visited == expiring;
    }

    method MarkTimedOut(names: seq<Uri>)
      modifies this`timedOut
      ensures timedOut == old(timedOut) + (map name | name in names :: true)
    {
      for marked := 0 to |names|
        invariant timedOut == old(timedOut) + (map name | name in names[..marked] :: true)
      {
        assert names[..marked + 1] == names[..marked] + [names[marked]];
        timedOut := timedOut[names[marked] := true];
      }
      assert names[..|names|] == names;
    }

    /** Report and flag the peers that timed out, then gossip this node's own record when the
        interval has passed. */
    method InternalProcess(now: u64) returns (didWork: bool, outbox: seq<Command>)
      requires Valid()
      modifies this`timedOut, this`lastGossip
      ensures Valid()
      ensures State() == Process(old(State()), now)
      ensures exists names: seq<Uri> ::
                Lists(names, Expiring(old(State()), now)) &&
                outbox == TimeoutCommands(names) + SelfGossip(old(State()), now)
      ensures didWork == (outbox != [])
    {
      ghost var start := State();
      var names: seq<Uri>;
      outbox, names := CollectTimedOut(now);
      MarkTimedOut(names);
      assert (map name | name in names :: true) == (map name | name in Expiring(start, now) :: true);
      ghost var timeouts := outbox;
      if Elapsed(now, lastGossip) > config.gossipInterval {
        lastGossip := now;
        var others := OtherPeers(State());
        if others != {} {
          outbox := outbox + [GossipTo(others, PeerGossip(thisPeer))];
        }
      }
      didWork := outbox != [];
      assert outbox == TimeoutCommands(names) + SelfGossip(start, now);
    }
  }
}
