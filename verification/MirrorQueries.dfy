/** What a MirrorDht node answers its owner, told from the requests it has served alone. */
module MirrorQueries {
  import opened MirrorDht
  import opened Wrappers

  datatype Asked = Asked(request: Request, now: u64)

  function After(node: Node, served: seq<Asked>): Node {
    if served == [] then node
    else Handle(After(node, served[..|served| - 1]), served[|served| - 1].request, served[|served| - 1].now).node
  }

  /** The entry a request makes a node hold: a broadcast, or a hold of an entry that is not shallow. */
  function Stored(request: Request): Option<EntryData> {
    match request
    case BroadcastEntry(entry) => Some(entry)
    case HoldEntryAspectAddress(entry) => if Shallow(entry) then None else Some(entry)
    case _ => None
  }

  predicate Brings(request: Request, address: EntryHash, aspect: AspectHash) {
    Stored(request).Some? && Stored(request).value.address == address && aspect in AspectSet(Stored(request).value)
  }

  ghost predicate Brought(served: seq<Asked>, address: EntryHash, aspect: AspectHash) {
    exists i :: 0 <= i < |served| && Brings(served[i].request, address, aspect)
  }

  lemma BroughtLast(served: seq<Asked>, address: EntryHash, aspect: AspectHash)
    requires served != []
    ensures Brought(served, address, aspect) <==>
              Brought(served[..|served| - 1], address, aspect) || Brings(served[|served| - 1].request, address, aspect)
  {
    var before := served[..|served| - 1];
    if i :| 0 <= i < |before| && Brings(before[i].request, address, aspect) {
      assert served[i] == before[i];
    }
    if i :| 0 <= i < |served| && Brings(served[i].request, address, aspect) {
      assert i == |served| - 1 || before[i] == served[i];
    }
  }

  /** Entries are listed once something is held of them. */
  predicate Tidy(node: Node) {
    forall address :: address in node.entries ==> node.entries[address] != {}
  }

  lemma {:induction false} StaysTidy(node: Node, served: seq<Asked>)
    requires node.entries == map[]
    ensures Tidy(After(node, served))
  {
    if served != [] {
      StaysTidy(node, served[..|served| - 1]);
    }
  }

  lemma HandleHolds(node: Node, request: Request, now: u64, address: EntryHash, aspect: AspectHash)
    ensures aspect in Held(Handle(node, request, now).node, address) <==>
              aspect in Held(node, address) || Brings(request, address, aspect)
  {
    if Stored(request).Some? {
      StoredAspects(node, Stored(request).value, address);
    }
  }

  lemma {:induction false} HeldIsBrought(node: Node, served: seq<Asked>, address: EntryHash, aspect: AspectHash)
    requires node.entries == map[]
    ensures aspect in Held(After(node, served), address) <==> Brought(served, address, aspect)
  {
    if served != [] {
      var before, last := served[..|served| - 1], served[|served| - 1];
      HeldIsBrought(node, before, address, aspect);
      HandleHolds(After(node, before), last.request, last.now, address, aspect);
      BroughtLast(served, address, aspect);
    }
  }

  /** Asked for an entry, a node answers exactly the aspects its owner ever had it hold, whatever else it
      served, and none if there are none; its entry list names exactly the entries with some. */
  lemma EntriesAreAnswered(node: Node, served: seq<Asked>, address: EntryHash, now: u64)
    requires node.entries == map[]
    ensures var end := After(node, served);
            var aspects, list := Handle(end, RequestAspectsOf(address), now).answer,
                                 Handle(end, RequestEntryAddressList, now).answer;
            aspects.AspectsAnswer? && list.EntryListAnswer? &&
            (address in list.addresses <==> exists aspect :: Brought(served, address, aspect)) &&
            (aspects.aspects.Some? <==> address in list.addresses) &&
            (aspects.aspects.Some? ==>
              forall aspect :: aspect in aspects.aspects.value <==> Brought(served, address, aspect))
  {
    var end := After(node, served);
    StaysTidy(node, served);
    forall aspect ensures aspect in Held(end, address) <==> Brought(served, address, aspect) {
      HeldIsBrought(node, served, address, aspect);
    }
    hide After;
    hide Brought;
    if address in end.entries {
      var one :| one in end.entries[address];
      assert one in Held(end, address);
    }
  }

  /** The location last advertised. */
  function Advertised(served: seq<Asked>, first: Uri): Uri {
    if served == [] then first
    else if served[|served| - 1].request.UpdateAdvertise? then served[|served| - 1].request.location
    else Advertised(served[..|served| - 1], first)
  }

  /** Asked for itself, a node answers with the location last advertised, under its name and with the
      timestamp it started with. */
  lemma {:induction false} ThisPeerIsAnswered(node: Node, served: seq<Asked>, now: u64)
    ensures Handle(After(node, served), RequestThisPeer, now).answer ==
            ThisPeerAnswer(node.thisPeer.(location := Advertised(served, node.thisPeer.location)))
  {
    if served != [] {
      ThisPeerIsAnswered(node, served[..|served| - 1], now);
    }
  }
}
