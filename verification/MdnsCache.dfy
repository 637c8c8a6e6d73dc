/** The cache of a multicast DNS node: what packets, ageing, release and flush do to it. */
module MdnsCache {
  import opened DnsCodec
  import opened MdnsRecords
  import opened MdnsMessages
  import opened Wrappers

  // ----- Ageing -----

  function OwnUrls(own: HashMapRecord): set<Text> {
    set id, r | id in own && r in own[id] :: r.url
  }

  function AgeRecord(mine: set<Text>, r: Record): Record {
    if r.url !in mine && r.ttl > 0 then r.(ttl := r.ttl - 1) else r
  }

  function Age(mine: set<Text>, s: seq<Record>): seq<Record> {
    seq(|s|, i requires 0 <= i < |s| => AgeRecord(mine, s[i]))
  }

  function Prune(s: seq<Record>): seq<Record> {
    if s == [] then [] else (if s[0].ttl == 0 then [] else [s[0]]) + Prune(s[1..])
  }

  function AgeAll(mine: set<Text>, m: HashMapRecord): HashMapRecord {
    map id | id in m :: Age(mine, m[id])
  }

  function PruneAll(m: HashMapRecord): HashMapRecord {
    map id | id in m :: Prune(m[id])
  }

  // ----- Packets -----

  const READ_BUF_SIZE := 4096

  /** An empty datagram ends a batch like an empty socket, so it is none of its packets. */
  type Datagram = b: seq<byte> | b != [] witness [0]

  /** A datagram as it was sent, and whether the sockets would take a reply to it. */
  datatype Packet = Packet(bytes: Datagram, replySent: bool)

  /** What the receive buffer holds of a datagram. */
  function Cut(b: seq<byte>): seq<byte> {
    if |b| <= READ_BUF_SIZE then b else b[..READ_BUF_SIZE]
  }

  function Incoming(p: Packet): Read<DnsMessage> {
    Decode(Cut(p.bytes))
  }

  /** `ok` is false where the call returns an error. */
  datatype Outcome = Outcome(ok: bool, cache: HashMapRecord)

  function OnlyOwn(m: HashMapRecord, own: HashMapRecord): HashMapRecord {
    map id | id in m && id in own :: m[id]
  }

  function Names(questions: seq<QuerySection>): seq<Text> {
    if questions == [] then []
    else
      (if questions[0].queryClass == 1 && questions[0].queryType == 5 then [questions[0].domainName] else []) +
      Names(questions[1..])
  }

  /** Questions are looked at only in a message without answers. */
  function ReplyTo(own: HashMapRecord, m: DnsMessage): Option<DnsMessage> {
    if m.nbAnswers > 0 || m.nbQuestions == 0 then None else ToDns(own, Names(m.questions))
  }

  predicate Accepts(own: HashMapRecord, p: Packet) {
    Incoming(p).Got? && (ReplyTo(own, Incoming(p).value).Some? ==> p.replySent)
  }

  /** What a packet has to say about the node's own networks. */
  function News(own: HashMapRecord, p: Packet): HashMapRecord {
    match Incoming(p)
    case Failed(_) => map[]
    case Got(m, _) =>
      if m.nbAnswers == 0 then map[]
      else
        match FromDns(m)
        case None => map[]
        case Some(n) => OnlyOwn(n, own)
  }

  /** Packets up to the first one that is not accepted. */
  function Received(own: HashMapRecord, cache: HashMapRecord, packets: seq<Packet>): Outcome
    decreases |packets|
  {
    if packets == [] then Outcome(true, cache)
    else if !Accepts(own, packets[0]) then Outcome(false, cache)
    else Received(own, Updated(cache, News(own, packets[0])), packets[1..])
  }

  /** `queryOk` is false when a query was due and could not be sent. An error skips ageing. */
  function Discovered(own: HashMapRecord, cache: HashMapRecord, packets: seq<Packet>, queryOk: bool): Outcome {
    var r := Received(own, cache, packets);
    if r.ok && queryOk then Outcome(true, PruneAll(AgeAll(OwnUrls(own), r.cache))) else Outcome(false, r.cache)
  }

  function ReleaseAll(own: HashMapRecord): HashMapRecord {
    map id | id in own :: Releasing(own[id])
  }

  function Releasing(s: seq<Record>): seq<Record> {
    seq(|s|, i requires 0 <= i < |s| => s[i].(ttl := 0))
  }

  // ----- Runs -----

  datatype Node = Node(own: HashMapRecord, cache: HashMapRecord)

  datatype Call = Discover(packets: seq<Packet>, queryOk: bool) | Release | Flush

  function Step(n: Node, call: Call): Node {
    match call
    case Discover(packets, queryOk) => n.(cache := Discovered(n.own, n.cache, packets, queryOk).cache)
    case Release => n.(own := ReleaseAll(n.own))
    case Flush => n.(cache := map[])
  }

  function Run(n: Node, calls: seq<Call>): Node
    decreases |calls|
  {
    if calls == [] then n else Run(Step(n, calls[0]), calls[1..])
  }
}
