/** Two nodes: what one announces or releases, and what the other makes of it. */
module MdnsNetwork {
  import opened DnsCodec
  import opened MdnsRecords
  import opened MdnsMessages
  import opened MdnsAnnounce
  import opened MdnsCache
  import opened MdnsCacheProofs
  import opened Wrappers

  // ----- The size of an announcement -----

  function Message(own: HashMapRecord, ids: seq<Text>): DnsMessage {
    ResponseOf(Answers(All(own, ids)))
  }

  function Size(own: HashMapRecord, ids: seq<Text>): nat {
    |Encode(Message(own, ids))|
  }

  lemma EncodeLength(m: DnsMessage)
    ensures |Encode(m)| == 12 + |PutAll(PutQuestion, m.questions)| + |PutAll(PutAnswer, m.answers)|
  {
    hide ValidUtf8;
    hide PutAll;
  }

  /** The one packet in which a node announces, or releases, all its networks. */
  function Sent(own: HashMapRecord, ids: seq<Text>, replySent: bool): Packet {
    EncodeLength(Message(own, ids));
    Packet(Encode(Message(own, ids)), replySent)
  }

  /** Everything can be announced: the networks are listed once each, there is something to say, lengths
      are in range, and reading the packet will drop nothing. */
  ghost predicate Announceable(own: HashMapRecord, ids: seq<Text>) {
    WellFiled(own) && Listing(ids, own) && All(own, ids) != [] && InRange(All(own, ids)) &&
    NoEqualNeighbours(Sort(All(own, ids)))
  }

  /** An announcement that fits the receive buffer is accepted; of a longer one only a prefix arrives,
      and that makes the whole discover call fail. */
  lemma AcceptedExactlyWhen(own: HashMapRecord, ids: seq<Text>, peer: HashMapRecord, replySent: bool)
    requires All(own, ids) != [] && InRange(All(own, ids))
    ensures Accepts(peer, Sent(own, ids, replySent)) <==> Size(own, ids) <= READ_BUF_SIZE
    ensures Size(own, ids) <= READ_BUF_SIZE ==> Incoming(Sent(own, ids, replySent)) == Got(Message(own, ids), [])
    ensures Message(own, ids).nbAnswers > 0
  {
    hide ValidUtf8;
    hide Decode;
    hide Encode;
    hide Fits;
    hide ToDns;
    hide Answers;
    var m := Message(own, ids);
    assert m.nbAnswers > 0 by { Counted(All(own, ids)); }
    ResponseFits(All(own, ids));
    if Size(own, ids) <= READ_BUF_SIZE {
      DecodeAfterEncode(m, []);
      assert Encode(m) + [] == Encode(m);
    } else {
      NoPrefixDecodes(m, Cut(Encode(m)));
    }
  }

  lemma Counted(s: seq<Record>)
    requires s != [] && InRange(s)
    ensures ResponseOf(Answers(s)).nbAnswers > 0
  {
    hide ValidUtf8;
  }

  // ----- What is heard -----

  lemma SortedGroup(s: seq<Record>, id: Text, url: Text)
    requires Filed(s, id) && Distinct(s)
    ensures ForUrl(Sort(s), url) == ForUrl(s, url)
  {
    hide ValidUtf8;
    hide AtMost;
    hide Distinct;
    DistinctCounts(s, id);
    ForUrlSort(s, url);
    var g := ForUrl(s, url);
    assert |g| <= 1;
    if g != [] {
      assert g == [g[0]];
      SortOne(g[0]);
    }
  }

  /** Without equal neighbours no network repeats a url. */
  lemma NetworksDistinct(own: HashMapRecord, ids: seq<Text>, id: Text)
    requires WellFiled(own) && Listing(ids, own) && NoEqualNeighbours(Sort(All(own, ids))) && id in own
    ensures Distinct(own[id])
  {
    hide ValidUtf8;
    hide AtMost;
    hide Sort;
    hide Distinct;
    hide NoEqualNeighbours;
    hide ForId;
    hide All;
    hide DedupByUrl;
    var all := All(own, ids);
    SortMembers(all);
    DedupByUrlShortens(Sort(all));
    DedupByUrlDistinct(Sort(all));
    ForIdDistinct(Sort(all), id);
    ForIdSort(all, id);
    ForIdAll(own, ids, id);
    SortDistinct(own[id], id);
  }

  lemma MapNews(own: HashMapRecord, p: Packet, m: DnsMessage, n: HashMapRecord, id: Text, url: Text)
    requires id in own && Incoming(p) == Got(m, []) && m.nbAnswers > 0 && FromDns(m) == Some(n)
    ensures Group(News(own, p), id, url) == Group(n, id, url)
  {
    hide ValidUtf8;
    hide Decode;
    hide FromDns;
    hide ForUrl;
  }

  /** A node hears of each url of its networks exactly what the announcing node has, provided the packet
      fits the receive buffer. */
  lemma AnnouncementHeard(own: HashMapRecord, ids: seq<Text>, peer: HashMapRecord, id: Text, url: Text, replySent: bool)
    requires Announceable(own, ids) && Size(own, ids) <= READ_BUF_SIZE && id in peer
    ensures Accepts(peer, Sent(own, ids, replySent))
    ensures Group(News(peer, Sent(own, ids, replySent)), id, url) == Group(own, id, url)
  {
    hide ValidUtf8;
    hide Decode;
    hide Encode;
    hide FromDns;
    hide ForUrl;
    hide Sort;
    hide AtMost;
    hide Distinct;
    hide All;
    hide Filed;
    hide InRange;
    hide NoEqualNeighbours;
    hide Accepts;
    hide News;
    hide Incoming;
    AnnouncementsArrive(own, ids, []);
    AcceptedExactlyWhen(own, ids, peer, replySent);
    MapNews(peer, Sent(own, ids, replySent), Message(own, ids), SortedMap(own), id, url);
    if id in own {
      NetworksDistinct(own, ids, id);
      SortedGroup(own[id], id, url);
      NoRecordsNoGroup(own[id], url);
    }
  }

  lemma NoRecordsNoGroup(s: seq<Record>, url: Text)
    ensures s == [] ==> ForUrl(s, url) == []
  {
  }

  // ----- Discovery -----

  /** The same packet, sent several times. */
  function Copies(p: Packet, k: nat): seq<Packet> {
    seq(k, i requires 0 <= i < k => p)
  }

  /** What an announcement leaves of a url that is not overlong: itself, beside a release if there was one. */
  function Announced(id: Text, url: Text, released: bool): seq<Record> {
    (if released then [Record(id, url, 0)] else []) + [Record(id, url, 255)]
  }

  lemma {:induction false} MoreHellos(own: HashMapRecord, p: Packet, id: Text, url: Text, g: seq<Record>, k: nat,
                                      released: bool)
    requires Accepts(own, p) && Group(News(own, p), id, url) == [Record(id, url, 255)]
    requires g == Announced(id, url, released) || (g == [] && !released)
    ensures UrlReceived(own, id, url, g, Copies(p, k)) == if k == 0 then g else Announced(id, url, released)
    decreases k
  {
    hide ValidUtf8;
    hide Accepts;
    hide News;
    hide Group;
    hide Rule;
    hide Announced;
    if k > 0 {
      assert Copies(p, k)[0] == p && Copies(p, k)[1..] == Copies(p, k - 1);
      NextHello(id, url, released);
      MoreHellos(own, p, id, url, Announced(id, url, released), k - 1, released);
    }
  }

  lemma NextHello(id: Text, url: Text, released: bool)
    ensures Rule(id, url, Announced(id, url, released) + [Record(id, url, 255)]) == Announced(id, url, released)
    ensures Rule(id, url, [] + [Record(id, url, 255)]) == Announced(id, url, false)
  {
    hide ValidUtf8;
    var g := Announced(id, url, released);
    var all := g + [Record(id, url, 255)];
    assert all[|g|] in all && all[0] in all && all[0] == g[0];
  }

  lemma AnnouncedRule(id: Text, url: Text, g: seq<Record>)
    requires Of(id, url, g) && OneOrPair(id, url, g)
    ensures Rule(id, url, g + [Record(id, url, 255)]) ==
            if Overlong(g) then [] else Announced(id, url, Record(id, url, 0) in g)
    ensures Overlong(g) ==> Record(id, url, 0) !in g
  {
    hide ValidUtf8;
    var full := Record(id, url, 255);
    var all := g + [full];
    OverlongMembers(g);
    assert full in all;
    if |g| == 1 {
      assert all == [g[0], full] && g[0] in g && g[0] in all;
    } else if g != [] {
      assert g[0] in g && g[0] in all;
    }
  }

  lemma HellosReceived(own: HashMapRecord, p: Packet, id: Text, url: Text, g: seq<Record>, k: nat)
    requires Accepts(own, p) && Group(News(own, p), id, url) == [Record(id, url, 255)]
    requires Of(id, url, g) && OneOrPair(id, url, g) && k > 0
    ensures UrlReceived(own, id, url, g, Copies(p, k)) ==
            if Overlong(g) && k == 1 then [] else Announced(id, url, Record(id, url, 0) in g)
  {
    hide ValidUtf8;
    hide Accepts;
    hide News;
    hide Group;
    hide Rule;
    hide Of;
    hide OneOrPair;
    hide Overlong;
    hide Announced;
    assert Copies(p, k)[0] == p && Copies(p, k)[1..] == Copies(p, k - 1);
    AnnouncedRule(id, url, g);
    var released := Record(id, url, 0) in g;
    MoreHellos(own, p, id, url, if Overlong(g) then [] else Announced(id, url, released), k - 1, released);
  }

  lemma TickAnnounced(mine: set<Text>, id: Text, url: Text, released: bool)
    ensures Tick(mine, Announced(id, url, released)) == [Record(id, url, if url in mine then 255 else 254)]
  {
    hide ValidUtf8;
    hide Tick;
    var zero, full := Record(id, url, 0), Record(id, url, 255);
    if released {
      assert Announced(id, url, released) == [zero, full];
      TickPair(mine, zero, full);
    } else {
      assert Announced(id, url, released) == [full];
    }
    TickOne(mine, full);
  }

  lemma CopiesSucceed(own: HashMapRecord, p: Packet, k: nat)
    requires k > 0
    ensures Succeeds(own, Discover(Copies(p, k), true)) <==> Accepts(own, p)
    ensures !Accepts(own, p) ==> forall id, url, g :: UrlReceived(own, id, url, g, Copies(p, k)) == g
  {
    hide ValidUtf8;
    hide Accepts;
    hide News;
    hide Group;
    hide Rule;
    assert Copies(p, k)[0] == p;
  }

  /** Discovery by an announcement sent `k` times, whatever the cache has of the url. If the packet fits
      the receive buffer the call succeeds and the url is known as if for the first time, except that a
      cached ttl above 255 and a single announcement erase it; if it does not fit, the call fails and
      nothing changes. */
  lemma DiscoveryWorks(n: Node, own: HashMapRecord, ids: seq<Text>, id: Text, url: Text, k: nat, replySent: bool)
    requires Inv(n) && Announceable(own, ids) && id in n.own && k > 0
    requires Group(own, id, url) == [Record(id, url, 255)]
    ensures var g, call := Group(n.cache, id, url), Discover(Copies(Sent(own, ids, replySent), k), true);
            (Succeeds(n.own, call) <==> Size(own, ids) <= READ_BUF_SIZE) &&
            Group(Step(n, call).cache, id, url) ==
            if Size(own, ids) > READ_BUF_SIZE then g
            else if Overlong(g) && k == 1 then []
            else [Record(id, url, if url in OwnUrls(n.own) then 255 else 254)]
  {
    hide ValidUtf8;
    hide Accepts;
    hide News;
    hide Group;
    hide Good;
    hide Rule;
    hide Step;
    hide Tick;
    hide OwnUrls;
    hide UrlReceived;
    hide Copies;
    hide Sent;
    hide Size;
    hide Sort;
    hide All;
    hide Overlong;
    hide Of;
    hide OneOrPair;
    hide Announced;
    hide Succeeds;
    var p, g := Sent(own, ids, replySent), Group(n.cache, id, url);
    AcceptedExactlyWhen(own, ids, n.own, replySent);
    CopiesSucceed(n.own, p, k);
    StepGroup(n, Discover(Copies(p, k), true), id, url);
    if Size(own, ids) <= READ_BUF_SIZE {
      AnnouncementHeard(own, ids, n.own, id, url, replySent);
      GoodGroup(n.cache, id, url);
      HellosReceived(n.own, p, id, url, g, k);
      TickAnnounced(OwnUrls(n.own), id, url, Record(id, url, 0) in g);
      TickNothing(OwnUrls(n.own));
    }
  }

  /** So a url not known before becomes known exactly when the announcement fits. */
  lemma LearnedExactlyWhen(n: Node, own: HashMapRecord, ids: seq<Text>, id: Text, url: Text, k: nat, replySent: bool)
    requires Inv(n) && Announceable(own, ids) && id in n.own && k > 0
    requires Group(own, id, url) == [Record(id, url, 255)] && Group(n.cache, id, url) == []
    ensures Group(Step(n, Discover(Copies(Sent(own, ids, replySent), k), true)).cache, id, url) != [] <==>
            Size(own, ids) <= READ_BUF_SIZE
  {
    hide ValidUtf8;
    hide Group;
    hide Inv;
    hide Announceable;
    hide Step;
    hide OwnUrls;
    hide Sent;
    hide Size;
    hide Succeeds;
    DiscoveryWorks(n, own, ids, id, url, k, replySent);
  }

  // ----- An announcement that does not fit -----

  lemma OneNetwork(id: Text, url: Text)
    requires |id| < 0x1_0000 && |url| < 0x1_0000
    ensures var own := map[id := [Record(id, url, 255)]];
            Announceable(own, [id]) && All(own, [id]) == [Record(id, url, 255)] &&
            Group(own, id, url) == [Record(id, url, 255)]
  {
    hide ValidUtf8;
    hide AtMost;
    var r := Record(id, url, 255);
    var own := map[id := [r]];
    assert [id][1..] == [] && [r][1..] == [];
    assert All(own, [id]) == [r] + All(own, []);
    SortOne(r);
    ForUrlSame([r], url, url);
  }

  lemma OneAnswer(a: AnswerSection)
    ensures |PutAll(PutAnswer, [a])| == 14 + |a.domainName| + |a.data.target|
  {
    hide ValidUtf8;
    assert [a][1..] == [];
    assert PutAll(PutAnswer, [a]) == PutAnswer(a) + PutAll(PutAnswer, []);
  }

  lemma SizeOfOne(own: HashMapRecord, ids: seq<Text>, r: Record)
    requires All(own, ids) == [r]
    ensures Size(own, ids) == 26 + |r.networkId| + |r.url|
  {
    hide ValidUtf8;
    hide Encode;
    hide PutAnswer;
    EncodeLength(Message(own, ids));
    assert Answers([r]) == [Answer(r)];
    OneAnswer(Answer(r));
  }

  /** A node with one url, too long for the receive buffer, is never discovered: whoever reads its
      announcement fails, keeps the cache as it was, and does not even age it. */
  lemma OversizedIsLost(n: Node, id: Text, url: Text, k: nat, replySent: bool)
    requires READ_BUF_SIZE < |url| < 0x1_0000 && |id| < 0x1_0000 && k > 0
    ensures var own := map[id := [Record(id, url, 255)]];
            var call := Discover(Copies(Sent(own, [id], replySent), k), true);
            Announceable(own, [id]) && !Succeeds(n.own, call) && Step(n, call) == n
  {
    hide ValidUtf8;
    hide Sent;
    hide Copies;
    hide Size;
    hide Succeeds;
    hide Step;
    var own := map[id := [Record(id, url, 255)]];
    OneNetwork(id, url);
    SizeOfOne(own, [id], Record(id, url, 255));
    FailingCall(n, own, [id], k, replySent);
  }

  /** A packet beyond the receive buffer makes the call fail and changes nothing. */
  lemma FailingCall(n: Node, own: HashMapRecord, ids: seq<Text>, k: nat, replySent: bool)
    requires All(own, ids) != [] && InRange(All(own, ids)) && Size(own, ids) > READ_BUF_SIZE && k > 0
    ensures var call := Discover(Copies(Sent(own, ids, replySent), k), true);
            !Succeeds(n.own, call) && Step(n, call) == n
  {
    hide ValidUtf8;
    hide Accepts;
    hide Updated;
    hide News;
    hide Sent;
    hide Size;
    hide AgeAll;
    hide PruneAll;
    hide All;
    hide InRange;
    var p := Sent(own, ids, replySent);
    AcceptedExactlyWhen(own, ids, n.own, replySent);
    CopiesSucceed(n.own, p, k);
    assert Copies(p, k)[0] == p;
  }

  // ----- Releases -----

  lemma {:induction false} AllReleased(own: HashMapRecord, ids: seq<Text>)
    ensures All(ReleaseAll(own), ids) == Releasing(All(own, ids))
    decreases |ids|
  {
    hide ValidUtf8;
    if ids != [] {
      AllReleased(own, ids[1..]);
      var first := if ids[0] in own then own[ids[0]] else [];
      assert Releasing(first + All(own, ids[1..])) == Releasing(first) + Releasing(All(own, ids[1..]));
    }
  }

  predicate SameKey(a: Record, b: Record) {
    a.networkId == b.networkId && a.url == b.url
  }

  lemma {:induction false} InsertDistinct(r: Record, t: seq<Record>)
    requires Sorted(t) && Distinct(Insert(r, t))
    ensures Distinct(t) && forall x :: x in t ==> !SameKey(r, x)
    decreases |t|
  {
    hide ValidUtf8;
    hide AtMost;
    var all := Insert(r, t);
    if t == [] {
    } else if AtMost(r, t[0]) {
      assert all == [r] + t;
      assert Distinct(t) by { DistinctTail(all); }
      forall x | x in t ensures !SameKey(r, x) {
        var i :| 0 <= i < |t| && t[i] == x;
        assert all[0] == r && all[i + 1] == x;
      }
    } else {
      var rest := Insert(r, t[1..]);
      assert all == [t[0]] + rest;
      DistinctTail(all);
      InsertDistinct(r, t[1..]);
      InsertKeeps(r, t[1..]);
      forall x | x in multiset(rest) ensures !SameKey(t[0], x) {
        var i :| 0 <= i < |rest| && rest[i] == x;
        assert all[0] == t[0] && all[i + 1] == x;
      }
      assert r in multiset(rest);
      HeadDistinct(t, rest, r);
    }
  }

  lemma DistinctTail(s: seq<Record>)
    requires s != [] && Distinct(s)
    ensures Distinct(s[1..])
  {
    hide ValidUtf8;
    forall i, j | 0 <= i < j < |s| - 1 ensures !SameKey(s[1..][i], s[1..][j]) {
      assert s[1..][i] == s[i + 1] && s[1..][j] == s[j + 1];
    }
  }

  lemma HeadDistinct(t: seq<Record>, rest: seq<Record>, r: Record)
    requires t != [] && Distinct(t[1..]) && multiset(rest) == multiset(t[1..]) + multiset{r}
    requires forall x :: x in multiset(rest) ==> !SameKey(t[0], x)
    ensures Distinct(t) && !SameKey(r, t[0])
  {
    hide ValidUtf8;
    forall i, j | 0 <= i < j < |t| ensures !SameKey(t[i], t[j]) {
      if i == 0 {
        assert t[1..][j - 1] == t[j];
        assert t[j] in multiset(t[1..]);
      } else {
        assert t[1..][i - 1] == t[i] && t[1..][j - 1] == t[j];
      }
    }
    assert r in multiset(rest);
  }

  lemma {:induction false} InsertReleasing(r: Record, t: seq<Record>)
    requires forall x :: x in t ==> !SameKey(r, x)
    ensures Insert(r.(ttl := 0), Releasing(t)) == Releasing(Insert(r, t))
    decreases |t|
  {
    hide ValidUtf8;
    var zero := r.(ttl := 0);
    if t == [] {
      assert Releasing([r]) == [zero];
    } else {
      var a := Releasing(t);
      assert a[0] == t[0].(ttl := 0) && a[1..] == Releasing(t[1..]);
      assert !SameKey(r, t[0]);
      assert AtMost(zero, a[0]) <==> AtMost(r, t[0]);
      if AtMost(r, t[0]) {
        assert Releasing([r] + t) == [zero] + a;
      } else {
        InsertReleasing(r, t[1..]);
        assert Releasing([t[0]] + Insert(r, t[1..])) == [a[0]] + Releasing(Insert(r, t[1..]));
      }
    }
  }

  /** Zeroing every ttl does not change the order. */
  lemma {:induction false} SortReleasing(s: seq<Record>)
    requires Distinct(Sort(s))
    ensures Sort(Releasing(s)) == Releasing(Sort(s))
    decreases |s|
  {
    hide ValidUtf8;
    hide AtMost;
    hide Distinct;
    if s != [] {
      var t := Sort(s[1..]);
      SortSorts(s[1..]);
      InsertDistinct(s[0], t);
      SortReleasing(s[1..]);
      InsertReleasing(s[0], t);
      assert Releasing(s)[0] == s[0].(ttl := 0) && Releasing(s)[1..] == Releasing(s[1..]);
    }
  }

  /** What can be announced can be released, in as many bytes. */
  lemma ReleaseAnnounceable(own: HashMapRecord, ids: seq<Text>)
    requires Announceable(own, ids)
    ensures Announceable(ReleaseAll(own), ids) && Size(ReleaseAll(own), ids) == Size(own, ids)
  {
    hide ValidUtf8;
    hide AtMost;
    hide Sort;
    hide All;
    hide Encode;
    hide Distinct;
    hide DedupByUrl;
    hide Answers;
    var all := All(own, ids);
    AllReleased(own, ids);
    SortMembers(all);
    DedupByUrlShortens(Sort(all));
    DedupByUrlDistinct(Sort(all));
    SortReleasing(all);
    EncodeLength(Message(own, ids));
    EncodeLength(Message(ReleaseAll(own), ids));
    ReleasedLength(all);
  }

  lemma AnswerLength(a: AnswerSection, b: AnswerSection)
    requires a.domainName == b.domainName && a.data.target == b.data.target
    ensures |PutAnswer(a)| == |PutAnswer(b)|
  {
    hide ValidUtf8;
  }

  lemma {:induction false} ReleasedLength(s: seq<Record>)
    ensures |PutAll(PutAnswer, Answers(Releasing(s)))| == |PutAll(PutAnswer, Answers(s))|
    decreases |s|
  {
    hide ValidUtf8;
    hide PutAnswer;
    if s != [] {
      var a, b := Answers(Releasing(s)), Answers(s);
      assert Releasing(s)[0] == s[0].(ttl := 0) && Releasing(s)[1..] == Releasing(s[1..]);
      assert a[0] == Answer(Releasing(s)[0]) && a[1..] == Answers(Releasing(s[1..]));
      assert b[0] == Answer(s[0]) && b[1..] == Answers(s[1..]);
      AnswerLength(a[0], b[0]);
      ReleasedLength(s[1..]);
    }
  }

  lemma {:induction false} ReleasedGroup(s: seq<Record>, url: Text)
    ensures ForUrl(Releasing(s), url) == Releasing(ForUrl(s, url))
    decreases |s|
  {
    hide ValidUtf8;
    if s != [] {
      var a := Releasing(s);
      assert a[0] == s[0].(ttl := 0) && a[1..] == Releasing(s[1..]);
      ReleasedGroup(s[1..], url);
      var g, g1 := ForUrl(s, url), ForUrl(s[1..], url);
      if s[0].url == url {
        assert g == [s[0]] + g1;
        assert Releasing(g) == [a[0]] + Releasing(g1);
      } else {
        assert g == g1;
      }
    }
  }

  /** A release says ttl 0 for each of the node's urls, provided the packet fits the receive buffer. */
  lemma ReleaseHeard(own: HashMapRecord, ids: seq<Text>, peer: HashMapRecord, id: Text, url: Text, ttl: u32,
                     replySent: bool)
    requires Announceable(own, ids) && Size(own, ids) <= READ_BUF_SIZE && id in peer
    requires Group(own, id, url) == [Record(id, url, ttl)]
    ensures Accepts(peer, Sent(ReleaseAll(own), ids, replySent))
    ensures Group(News(peer, Sent(ReleaseAll(own), ids, replySent)), id, url) == [Record(id, url, 0)]
  {
    hide ValidUtf8;
    hide Accepts;
    hide News;
    hide Announceable;
    hide ForUrl;
    hide Sent;
    hide Size;
    ReleaseAnnounceable(own, ids);
    AnnouncementHeard(ReleaseAll(own), ids, peer, id, url, replySent);
    ReleasedGroup(own[id], url);
  }

  lemma {:induction false} UrlReceivedJoin(own: HashMapRecord, id: Text, url: Text, g: seq<Record>,
                                           a: seq<Packet>, b: seq<Packet>)
    requires forall i :: 0 <= i < |a| ==> Accepts(own, a[i])
    ensures UrlReceived(own, id, url, g, a + b) ==
            UrlReceived(own, id, url, UrlReceived(own, id, url, g, a), b)
    decreases |a|
  {
    hide ValidUtf8;
    hide Accepts;
    hide News;
    hide Group;
    hide Rule;
    if a == [] {
      assert a + b == b;
    } else {
      assert (a + b)[0] == a[0] && (a + b)[1..] == a[1..] + b;
      UrlReceivedJoin(own, id, url, Rule(id, url, g + Group(News(own, a[0]), id, url)), a[1..], b);
    }
  }

  lemma ByesReceived(own: HashMapRecord, p: Packet, id: Text, url: Text, g: seq<Record>, k: nat)
    requires Accepts(own, p) && Group(News(own, p), id, url) == [Record(id, url, 0)] && k > 0
    requires Of(id, url, g) && OneOrPair(id, url, g)
    ensures forall i :: 0 <= i < k ==> Releases(own, Copies(p, k)[i], id, url)
    ensures UrlReceived(own, id, url, g, Copies(p, k)) == AfterRelease(id, url, Record(id, url, 255) in g)
  {
    hide ValidUtf8;
    hide Accepts;
    hide News;
    hide Group;
    hide UrlReceived;
    hide AfterRelease;
    hide Of;
    hide OneOrPair;
    assert Copies(p, k)[0] == p;
    ReleasesReceived(own, id, url, g, Copies(p, k), 0);
  }

  /** A node announces itself and leaves, each any number of times, whatever its peer has of it. If the
      peer's discover came in between it is forgotten at once; if one discover read it all, it stays
      known with 254 rounds to live, except that a cached ttl above 255 and a single announcement erase
      it. All provided the packets fit the receive buffer. */
  lemma QuickLeaveIsMissed(n: Node, own: HashMapRecord, ids: seq<Text>, id: Text, url: Text, j: nat, k: nat,
                           replySent: bool)
    requires Inv(n) && Announceable(own, ids) && Size(own, ids) <= READ_BUF_SIZE
    requires id in n.own && url !in OwnUrls(n.own) && j > 0 && k > 0
    requires Group(own, id, url) == [Record(id, url, 255)]
    ensures var hellos, byes := Copies(Sent(own, ids, replySent), j), Copies(Sent(ReleaseAll(own), ids, replySent), k);
            Group(Step(n, Discover(hellos + byes, true)).cache, id, url) ==
              (if Overlong(Group(n.cache, id, url)) && j == 1 then [] else [Record(id, url, 254)]) &&
            Group(Step(Step(n, Discover(hellos, true)), Discover(byes, true)).cache, id, url) == []
  {
    hide ValidUtf8;
    hide Accepts;
    hide News;
    hide Group;
    hide Inv;
    hide Announceable;
    hide Rule;
    hide Step;
    hide Tick;
    hide OwnUrls;
    hide UrlReceived;
    hide Sent;
    hide Size;
    hide Releases;
    hide ReleaseAll;
    hide Overlong;
    var hello, bye := Sent(own, ids, replySent), Sent(ReleaseAll(own), ids, replySent);
    ReleaseHeard(own, ids, n.own, id, url, 255, replySent);
    AnnouncementHeard(own, ids, n.own, id, url, replySent);
    TogetherMissed(n, hello, bye, id, url, j, k);
    DiscoveryWorks(n, own, ids, id, url, j, replySent);
    var n' := Step(n, Discover(Copies(hello, j), true));
    StepKeepsInv(n, Discover(Copies(hello, j), true));
    assert n'.own == n.own by { DiscoverKeepsOwn(n, Copies(hello, j)); }
    ByesReceived(n.own, bye, id, url, [], k);
    assert Copies(bye, k)[0] == bye;
    ReleaseForgets(n', Copies(bye, k), 0, id, url);
  }

  lemma TogetherMissed(n: Node, hello: Packet, bye: Packet, id: Text, url: Text, j: nat, k: nat)
    requires Inv(n) && url !in OwnUrls(n.own) && j > 0 && k > 0
    requires Accepts(n.own, hello) && Group(News(n.own, hello), id, url) == [Record(id, url, 255)]
    requires Accepts(n.own, bye) && Group(News(n.own, bye), id, url) == [Record(id, url, 0)]
    ensures Group(Step(n, Discover(Copies(hello, j) + Copies(bye, k), true)).cache, id, url) ==
            if Overlong(Group(n.cache, id, url)) && j == 1 then [] else [Record(id, url, 254)]
  {
    hide ValidUtf8;
    hide Accepts;
    hide News;
    hide Group;
    hide Good;
    hide Rule;
    hide Step;
    hide Tick;
    hide OwnUrls;
    hide UrlReceived;
    hide Releases;
    hide Overlong;
    hide Of;
    hide OneOrPair;
    hide Announced;
    hide AfterRelease;
    var packets, g := Copies(hello, j) + Copies(bye, k), Group(n.cache, id, url);
    StepGroup(n, Discover(packets, true), id, url);
    GoodGroup(n.cache, id, url);
    UrlReceivedJoin(n.own, id, url, g, Copies(hello, j), Copies(bye, k));
    HellosReceived(n.own, hello, id, url, g, j);
    var h := UrlReceived(n.own, id, url, g, Copies(hello, j));
    HellosLeaveTidy(id, url, Record(id, url, 0) in g);
    ByesReceived(n.own, bye, id, url, h, k);
    TickReleased(OwnUrls(n.own), id, url, Record(id, url, 255) in h);
  }

  lemma HellosLeaveTidy(id: Text, url: Text, released: bool)
    ensures var h := Announced(id, url, released); Of(id, url, h) && OneOrPair(id, url, h) && Record(id, url, 255) in h
    ensures Of(id, url, []) && OneOrPair(id, url, [])
  {
    hide ValidUtf8;
    var h := Announced(id, url, released);
    assert h[|h| - 1] in h;
  }

  lemma DiscoverKeepsOwn(n: Node, packets: seq<Packet>)
    ensures Step(n, Discover(packets, true)).own == n.own
  {
    hide ValidUtf8;
    hide Discovered;
  }
}
