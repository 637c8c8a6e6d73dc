/** Whole runs of the cache: each url of each network lives its own small life. */
module MdnsCacheProofs {
  import opened DnsCodec
  import opened MdnsRecords
  import opened MdnsMessages
  import opened Wrappers
  import opened MdnsAnnounce
  import opened MdnsCache

  function Group(m: HashMapRecord, id: Text, url: Text): seq<Record> {
    if id in m then ForUrl(m[id], url) else []
  }

  /** Every record is under its own network and every url is tidy. */
  ghost predicate Good(m: HashMapRecord) {
    forall id :: id in m ==> Filed(m[id], id) && Tidy(m[id], id)
  }

  ghost predicate Inv(n: Node) {
    n.cache.Keys <= n.own.Keys && Good(n.cache)
  }

  // ----- One url -----

  function Tick(mine: set<Text>, group: seq<Record>): seq<Record> {
    Prune(Age(mine, group))
  }

  function UrlReceived(own: HashMapRecord, id: Text, url: Text, group: seq<Record>, packets: seq<Packet>): seq<Record>
    decreases |packets|
  {
    if packets == [] || !Accepts(own, packets[0]) then group
    else UrlReceived(own, id, url, Rule(id, url, group + Group(News(own, packets[0]), id, url)), packets[1..])
  }

  predicate Succeeds(own: HashMapRecord, call: Call) {
    call.Discover? && call.queryOk && forall i :: 0 <= i < |call.packets| ==> Accepts(own, call.packets[i])
  }

  /** One call as one url sees it: the rule for each accepted packet, then a tick if the call succeeds. */
  function UrlStep(own: HashMapRecord, id: Text, url: Text, group: seq<Record>, call: Call): seq<Record> {
    match call
    case Flush => []
    case Release => group
    case Discover(packets, _) =>
      var g := UrlReceived(own, id, url, group, packets);
      if Succeeds(own, call) then Tick(OwnUrls(own), g) else g
  }

  // ----- Updating, url by url -----

  lemma GoodGroup(m: HashMapRecord, id: Text, url: Text)
    requires Good(m)
    ensures Of(id, url, Group(m, id, url)) && OneOrPair(id, url, Group(m, id, url))
  {
    hide ValidUtf8;
    hide OneOrPair;
    hide ForUrl;
    if id in m {
      GroupOf(m[id], id, url);
    } else {
      assert OneOrPair(id, url, []) by { EmptyIsTidy(id, url); }
    }
  }

  lemma EmptyIsTidy(id: Text, url: Text)
    ensures OneOrPair(id, url, [])
  {
  }

  /** An update follows the rule for every network and url, known or not. */
  lemma UpdatedGroup(m: HashMapRecord, other: HashMapRecord, id: Text, url: Text)
    requires Good(m) && Good(other)
    ensures Group(Updated(m, other), id, url) == Rule(id, url, Group(m, id, url) + Group(other, id, url))
  {
    hide ValidUtf8;
    hide Merge;
    hide Rule;
    hide ForUrl;
    hide OneOrPair;
    var g, h := Group(m, id, url), Group(other, id, url);
    GoodGroup(m, id, url);
    GoodGroup(other, id, url);
    if id in m && id in other {
      MergeIsRule(id, m[id], other[id], url);
    } else if id in other {
      assert g + h == h;
      RuleLeavesTidy(id, url, h);
    } else {
      assert g + h == g;
      RuleLeavesTidy(id, url, g);
    }
  }

  lemma UpdatedGood(m: HashMapRecord, other: HashMapRecord)
    requires Good(m) && Good(other)
    ensures Good(Updated(m, other))
  {
    hide ValidUtf8;
    hide Merge;
    hide Tidy;
    var u := Updated(m, other);
    forall id | id in u ensures Filed(u[id], id) && Tidy(u[id], id) {
      if id in m && id in other {
        MergeSorted(id, m[id], other[id]);
        MergeTidies(id, m[id], other[id]);
      }
    }
  }

  // ----- Updating twice -----

  predicate AllFiled(m: HashMapRecord) {
    forall id :: id in m ==> Filed(m[id], id)
  }

  predicate AllFresh(m: HashMapRecord) {
    forall id :: id in m ==> Fresh(m[id])
  }

  /** Merging `other` into `m` a second time leaves the list of network `id` alone. */
  ghost predicate Repeatable(m: HashMapRecord, other: HashMapRecord, id: Text)
    requires id in other
  {
    if id in m then forall url :: Record(id, url, 255) in other[id] ==> !Overlong(ForUrl(m[id], url))
    else Sorted(other[id]) && Tidy(other[id], id)
  }

  /** The list of a network not known before is taken over as it is; the second update sorts and tidies
      it. */
  lemma InsertedTwice(id: Text, list: seq<Record>)
    requires Filed(list, id) && Fresh(list)
    ensures Merge(list, list) == list <==> Sorted(list) && Tidy(list, id)
  {
    hide ValidUtf8;
    hide Merge;
    hide Rule;
    hide ForUrl;
    MergeSorted(id, list, list);
    MergeTidies(id, list, list);
    if Sorted(list) && Tidy(list, id) {
      forall url ensures ForUrl(Merge(list, list), url) == ForUrl(list, url) {
        var h := ForUrl(list, url);
        MergeIsRule(id, list, list, url);
        GroupOf(list, id, url);
        GroupFresh(list, url);
        assert OneOrPair(id, url, h);
        RuleLeavesTidy(id, url, h);
        if h == [] {
          assert h + h == h;
        } else {
          FreshAlone(id, url, h);
        }
      }
      GroupsDetermine(Merge(list, list), list);
    }
  }

  lemma EntryTwice(m: HashMapRecord, other: HashMapRecord, id: Text)
    requires Good(m) && AllFiled(other) && AllFresh(other) && id in other
    ensures Updated(Updated(m, other), other)[id] == Updated(m, other)[id] <==> Repeatable(m, other, id)
  {
    hide ValidUtf8;
    hide Merge;
    hide ForUrl;
    hide Overlong;
    hide Tidy;
    hide Sorted;
    if id in m {
      MergeTwice(id, m[id], other[id]);
    } else {
      InsertedTwice(id, other[id]);
    }
  }

  /** Repeating an update of announcements and releases changes nothing, if and only if no announcement
      for a network known before meets a cached ttl above 255, and the lists of the other networks are
      sorted and tidy. */
  lemma UpdatedTwice(m: HashMapRecord, other: HashMapRecord)
    requires Good(m) && AllFiled(other) && AllFresh(other)
    ensures Updated(Updated(m, other), other) == Updated(m, other) <==>
            forall id :: id in other ==> Repeatable(m, other, id)
  {
    hide ValidUtf8;
    hide Merge;
    hide Good;
    hide AllFiled;
    hide AllFresh;
    hide Repeatable;
    var once := Updated(m, other);
    forall id | id in other
      ensures Updated(once, other)[id] == once[id] <==> Repeatable(m, other, id)
    {
      EntryTwice(m, other, id);
    }
    assert Updated(once, other).Keys == once.Keys;
    if forall id :: id in other ==> Repeatable(m, other, id) {
      assert forall id :: id in once ==> Updated(once, other)[id] == once[id];
    }
  }

  /** Two announcements of a new network out of order: the second update swaps them. */
  lemma UnsortedChanges(id: Text, a: Text, b: Text)
    requires Less(a, b)
    ensures var list := [Record(id, b, 255), Record(id, a, 255)];
            var other := map[id := list];
            Updated(map[], other) == other && Updated(other, other) != other
  {
    hide ValidUtf8;
    hide Merge;
    hide Less;
    var list := [Record(id, b, 255), Record(id, a, 255)];
    MergeSorted(id, list, list);
    OutOfOrder(id, a, b);
    assert Updated(map[id := list], map[id := list])[id] == Merge(list, list);
  }

  lemma OutOfOrder(id: Text, a: Text, b: Text)
    requires Less(a, b)
    ensures !Sorted([Record(id, b, 255), Record(id, a, 255)])
  {
    hide ValidUtf8;
    LessTotal(id, id);
    LessTotal(a, b);
    var list := [Record(id, b, 255), Record(id, a, 255)];
    assert !AtMost(list[0], list[1]);
  }

  // ----- News is good -----

  lemma ListTidy(s: seq<Record>, id: Text)
    requires Filed(s, id) && Distinct(s)
    ensures Tidy(s, id)
  {
    hide ValidUtf8;
    hide Distinct;
    DistinctCounts(s, id);
  }

  lemma ByNetworkGood(list: seq<Record>)
    requires Distinct(list)
    ensures Good(ByNetwork(list))
  {
    hide ValidUtf8;
    hide Tidy;
    hide Distinct;
    hide ForId;
    forall id | id in Ids(list) ensures Filed(ForId(list, id), id) && Tidy(ForId(list, id), id) {
      ForIdFiled(list, id);
      ForIdDistinct(list, id);
      ListTidy(ForId(list, id), id);
    }
  }

  lemma NewsGood(own: HashMapRecord, p: Packet)
    ensures Good(News(own, p)) && News(own, p).Keys <= own.Keys
  {
    hide ValidUtf8;
    hide Decode;
    hide FromDns;
    hide Sort;
    hide DedupByUrl;
    hide RecordsOf;
    hide ByNetwork;
    hide Distinct;
    hide Tidy;
    if Incoming(p).Got? && Incoming(p).value.answers != [] {
      var m := Incoming(p).value;
      ReadingGroups(m);
      ByNetworkGood(DedupByUrl(Sort(RecordsOf(m.answers))));
    } else {
      assert News(own, p) == map[] by { NoNews(own, p); }
    }
  }

  lemma NoNews(own: HashMapRecord, p: Packet)
    requires Incoming(p).Got? ==> Incoming(p).value.answers == []
    ensures News(own, p) == map[]
  {
    hide ValidUtf8;
    hide Decode;
  }

  lemma NewsSorted(own: HashMapRecord, p: Packet, id: Text)
    requires id in News(own, p)
    ensures Sorted(News(own, p)[id])
  {
    hide ValidUtf8;
    hide Decode;
    hide FromDns;
    hide Sort;
    hide AtMost;
    hide DedupByUrl;
    hide RecordsOf;
    hide Distinct;
    hide ForId;
    if Incoming(p).value.answers == [] {
      NoNews(own, p);
    } else {
      var m := Incoming(p).value;
      ReadingGroups(m);
      ForIdSorted(DedupByUrl(Sort(RecordsOf(m.answers))), id);
    }
  }

  /** A packet of announcements and releases, read again, changes nothing if and only if it announces no
      url cached with a ttl above 255: what is read is sorted, so the order in the packet is no matter. */
  lemma PacketTwice(own: HashMapRecord, cache: HashMapRecord, p: Packet)
    requires Good(cache) && AllFresh(News(own, p))
    ensures var news := News(own, p);
            Updated(Updated(cache, news), news) == Updated(cache, news) <==>
            forall id, url :: id in news && Record(id, url, 255) in news[id] ==> !Overlong(Group(cache, id, url))
  {
    hide ValidUtf8;
    hide News;
    hide AllFresh;
    hide Updated;
    hide Sorted;
    hide Filed;
    hide Tidy;
    hide ForUrl;
    hide Overlong;
    var news := News(own, p);
    NewsGood(own, p);
    UpdatedTwice(cache, news);
    forall id | id in news
      ensures Repeatable(cache, news, id) <==>
              forall url :: Record(id, url, 255) in news[id] ==> !Overlong(Group(cache, id, url))
    {
      NewsSorted(own, p, id);
      NothingOverlong();
    }
  }

  lemma NothingOverlong()
    ensures !Overlong([])
  {
  }

  // ----- Ageing, url by url -----

  lemma {:induction false} ForUrlAge(mine: set<Text>, s: seq<Record>, url: Text)
    ensures ForUrl(Age(mine, s), url) == Age(mine, ForUrl(s, url))
    decreases |s|
  {
    hide ValidUtf8;
    if s != [] {
      var a := Age(mine, s);
      assert a[0] == AgeRecord(mine, s[0]) && a[1..] == Age(mine, s[1..]);
      ForUrlAge(mine, s[1..], url);
    }
  }

  lemma {:induction false} ForUrlPrune(s: seq<Record>, url: Text)
    ensures ForUrl(Prune(s), url) == Prune(ForUrl(s, url))
    decreases |s|
  {
    hide ValidUtf8;
    if s != [] {
      ForUrlPrune(s[1..], url);
      var p, g := Prune(s), ForUrl(s, url);
      if s[0].ttl != 0 {
        assert p[0] == s[0] && p[1..] == Prune(s[1..]);
      } else {
        assert p == Prune(s[1..]);
      }
      if s[0].url == url {
        assert g[0] == s[0] && g[1..] == ForUrl(s[1..], url);
      } else {
        assert g == ForUrl(s[1..], url);
      }
    }
  }

  lemma TickGroup(mine: set<Text>, m: HashMapRecord, id: Text, url: Text)
    ensures Group(PruneAll(AgeAll(mine, m)), id, url) == Tick(mine, Group(m, id, url))
  {
    hide ValidUtf8;
    hide ForUrl;
    hide Age;
    hide Prune;
    if id in m {
      ForUrlPrune(Age(mine, m[id]), url);
      ForUrlAge(mine, m[id], url);
    } else {
      TickNothing(mine);
    }
  }

  lemma TickNothing(mine: set<Text>)
    ensures Tick(mine, []) == []
  {
  }

  lemma TickOne(mine: set<Text>, r: Record)
    ensures Tick(mine, [r]) == var a := AgeRecord(mine, r); if a.ttl == 0 then [] else [a]
  {
    hide ValidUtf8;
    var a := AgeRecord(mine, r);
    assert Age(mine, [r]) == [a] && [a][1..] == [];
    assert Prune([a]) == (if a.ttl == 0 then [] else [a]) + Prune([]);
  }

  lemma TickPair(mine: set<Text>, released: Record, r: Record)
    requires released.ttl == 0
    ensures Tick(mine, [released, r]) == Tick(mine, [r])
  {
    hide ValidUtf8;
    var a, b := AgeRecord(mine, released), AgeRecord(mine, r);
    assert Age(mine, [released, r]) == [a] + [b] && Age(mine, [r]) == [b];
    assert ([a] + [b])[1..] == [b];
  }

  /** A tick leaves at most one record of a tidy url, alive. */
  lemma TickLeavesOne(mine: set<Text>, id: Text, url: Text, g: seq<Record>)
    requires Of(id, url, g) && OneOrPair(id, url, g)
    ensures var t := Tick(mine, g); |t| <= 1 && Of(id, url, t) && forall i :: 0 <= i < |t| ==> t[i].ttl > 0
  {
    hide ValidUtf8;
    hide Tick;
    if g == [] {
      TickNothing(mine);
    } else if |g| == 1 {
      assert g == [g[0]];
      TickOne(mine, g[0]);
    } else {
      TickPair(mine, g[0], g[1]);
      TickOne(mine, g[1]);
    }
  }

  lemma TickFiled(mine: set<Text>, s: seq<Record>, id: Text)
    requires Filed(s, id)
    ensures Filed(Prune(Age(mine, s)), id)
  {
    hide ValidUtf8;
    PruneFiled(Age(mine, s), id);
  }

  lemma {:induction false} PruneFiled(s: seq<Record>, id: Text)
    requires Filed(s, id)
    ensures Filed(Prune(s), id)
    decreases |s|
  {
    hide ValidUtf8;
    if s != [] {
      PruneFiled(s[1..], id);
    }
  }

  lemma TickGood(mine: set<Text>, m: HashMapRecord)
    requires Good(m)
    ensures Good(PruneAll(AgeAll(mine, m)))
  {
    hide ValidUtf8;
    hide ForUrl;
    hide Age;
    hide Prune;
    var u := PruneAll(AgeAll(mine, m));
    forall id | id in u ensures Filed(u[id], id) && Tidy(u[id], id) {
      TickFiled(mine, m[id], id);
      forall url ensures OneOrPair(id, url, ForUrl(u[id], url)) {
        TickGroup(mine, m, id, url);
        GoodGroup(m, id, url);
        TickLeavesOne(mine, id, url, Group(m, id, url));
      }
    }
  }

  // ----- Runs keep the invariant -----

  lemma {:induction false} ReceivedGood(own: HashMapRecord, cache: HashMapRecord, packets: seq<Packet>)
    requires Good(cache) && cache.Keys <= own.Keys
    ensures var r := Received(own, cache, packets); Good(r.cache) && r.cache.Keys <= own.Keys
    decreases |packets|
  {
    hide ValidUtf8;
    hide Good;
    hide Accepts;
    hide News;
    if packets != [] {
      NewsGood(own, packets[0]);
      UpdatedGood(cache, News(own, packets[0]));
      ReceivedGood(own, Updated(cache, News(own, packets[0])), packets[1..]);
    }
  }

  lemma StepKeepsInv(n: Node, call: Call)
    requires Inv(n)
    ensures Inv(Step(n, call))
  {
    hide ValidUtf8;
    hide Received;
    hide Age;
    hide Prune;
    hide Filed;
    hide Tidy;
    if call.Discover? {
      ReceivedGood(n.own, n.cache, call.packets);
      TickGood(OwnUrls(n.own), Received(n.own, n.cache, call.packets).cache);
    }
  }

  lemma {:induction false} RunKeepsInv(n: Node, calls: seq<Call>)
    requires Inv(n)
    ensures Inv(Run(n, calls))
    decreases |calls|
  {
    hide ValidUtf8;
    hide Inv;
    hide Step;
    if calls != [] {
      StepKeepsInv(n, calls[0]);
      RunKeepsInv(Step(n, calls[0]), calls[1..]);
    }
  }

  lemma StartsTidy(own: HashMapRecord)
    ensures Inv(Node(own, map[]))
  {
  }

  /** Over every run from an empty cache: cached networks are own networks, records are filed under
      their own network, and each url has at most one record or a release with an announcement. */
  lemma EveryRunIsTidy(own: HashMapRecord, calls: seq<Call>)
    ensures var n := Run(Node(own, map[]), calls);
            n.cache.Keys <= n.own.Keys && (forall id :: id in n.cache ==> Filed(n.cache[id], id)) &&
            forall id, url :: OneOrPair(id, url, Group(n.cache, id, url))
  {
    hide ValidUtf8;
    hide Run;
    hide Filed;
    hide Tidy;
    hide Group;
    hide OneOrPair;
    RunKeepsInv(Node(own, map[]), calls);
    var n := Run(Node(own, map[]), calls);
    forall id, url ensures OneOrPair(id, url, Group(n.cache, id, url)) {
      GoodGroup(n.cache, id, url);
    }
  }

  // ----- The cache is the sum of its urls -----

  lemma {:induction false} ReceivedGroup(own: HashMapRecord, cache: HashMapRecord, packets: seq<Packet>,
                                         id: Text, url: Text)
    requires Good(cache)
    ensures var r := Received(own, cache, packets);
            Group(r.cache, id, url) == UrlReceived(own, id, url, Group(cache, id, url), packets) &&
            (r.ok <==> forall i :: 0 <= i < |packets| ==> Accepts(own, packets[i]))
    decreases |packets|
  {
    hide ValidUtf8;
    hide Good;
    hide Accepts;
    hide News;
    hide Group;
    hide Rule;
    hide Updated;
    if packets != [] && Accepts(own, packets[0]) {
      var next := Updated(cache, News(own, packets[0]));
      NewsGood(own, packets[0]);
      UpdatedGood(cache, News(own, packets[0]));
      UpdatedGroup(cache, News(own, packets[0]), id, url);
      ReceivedGroup(own, next, packets[1..], id, url);
      assert forall i :: 1 <= i < |packets| ==> packets[i] == packets[1..][i - 1];
    }
  }

  /** Every call does to each url of each network what the url's own small machine says. */
  lemma StepGroup(n: Node, call: Call, id: Text, url: Text)
    requires Inv(n)
    ensures Group(Step(n, call).cache, id, url) == UrlStep(n.own, id, url, Group(n.cache, id, url), call)
  {
    hide ValidUtf8;
    hide Received;
    hide UrlReceived;
    hide ForUrl;
    hide Tick;
    hide Accepts;
    hide AgeAll;
    hide PruneAll;
    if call.Discover? {
      ReceivedGroup(n.own, n.cache, call.packets, id, url);
      TickGroup(OwnUrls(n.own), Received(n.own, n.cache, call.packets).cache, id, url);
    }
  }

  /** At most one record, alive. */
  predicate Settled(g: seq<Record>) {
    |g| <= 1 && forall i :: 0 <= i < |g| ==> g[i].ttl > 0
  }

  lemma StepSettles(n: Node, call: Call, id: Text, url: Text)
    requires Inv(n) && Succeeds(n.own, call)
    ensures Settled(Group(Step(n, call).cache, id, url))
  {
    hide ValidUtf8;
    hide Step;
    hide Group;
    hide Tick;
    hide Good;
    hide Accepts;
    hide UrlReceived;
    StepGroup(n, call, id, url);
    ReceivedGood(n.own, n.cache, call.packets);
    ReceivedGroup(n.own, n.cache, call.packets, id, url);
    GoodGroup(Received(n.own, n.cache, call.packets).cache, id, url);
    TickLeavesOne(OwnUrls(n.own), id, url, UrlReceived(n.own, id, url, Group(n.cache, id, url), call.packets));
  }

  /** A discover call reports success exactly when it succeeds. */
  lemma SuccessMeans(n: Node, packets: seq<Packet>, queryOk: bool)
    requires Inv(n)
    ensures Discovered(n.own, n.cache, packets, queryOk).ok <==> Succeeds(n.own, Discover(packets, queryOk))
  {
    hide ValidUtf8;
    hide Received;
    hide Accepts;
    hide UrlReceived;
    ReceivedGroup(n.own, n.cache, packets, EMPTY, EMPTY);
  }

  /** In every run from an empty cache, after every successful discover each url has at most one record,
      with time to live. */
  lemma DiscoverSettles(own: HashMapRecord, calls: seq<Call>, call: Call, id: Text, url: Text)
    requires Succeeds(Run(Node(own, map[]), calls).own, call)
    ensures Settled(Group(Step(Run(Node(own, map[]), calls), call).cache, id, url))
  {
    hide ValidUtf8;
    hide Run;
    hide Step;
    hide Group;
    hide Inv;
    hide Succeeds;
    StartsTidy(own);
    RunKeepsInv(Node(own, map[]), calls);
    StepSettles(Run(Node(own, map[]), calls), call, id, url);
  }

  // ----- Ageing -----

  /** No answer of the packet names this url for this network. */
  predicate Silent(p: Packet, id: Text, url: Text) {
    Incoming(p).Got? ==>
      var answers := Incoming(p).value.answers;
      forall i :: 0 <= i < |answers| && Usable(answers[i]) ==>
        answers[i].domainName != id || answers[i].data.target != url
  }

  predicate Quiet(call: Call, id: Text, url: Text) {
    match call
    case Discover(packets, _) => forall i :: 0 <= i < |packets| ==> Silent(packets[i], id, url)
    case Release => true
    case Flush => false
  }

  function Successes(own: HashMapRecord, calls: seq<Call>): nat
    decreases |calls|
  {
    if calls == [] then 0
    else (if Succeeds(own, calls[0]) then 1 else 0) + Successes(Step(Node(own, map[]), calls[0]).own, calls[1..])
  }

  lemma {:induction false} RecordsFrom(answers: seq<AnswerSection>, r: Record)
    requires r in RecordsOf(answers)
    ensures exists i :: 0 <= i < |answers| && Usable(answers[i]) && AnswerRecord(answers[i]) == r
    decreases |answers|
  {
    hide ValidUtf8;
    if Usable(answers[0]) && AnswerRecord(answers[0]) == r {
    } else {
      RecordsFrom(answers[1..], r);
      var i :| 0 <= i < |answers[1..]| && Usable(answers[1..][i]) && AnswerRecord(answers[1..][i]) == r;
      assert answers[i + 1] == answers[1..][i];
    }
  }

  lemma GroupMember(list: seq<Record>, id: Text, url: Text)
    requires Group(ByNetwork(list), id, url) != []
    ensures exists r :: r in list && r.networkId == id && r.url == url
  {
    hide ValidUtf8;
    ForIdMembers(list, id);
    ForUrlMembers(ForId(list, id), url);
    var r := Group(ByNetwork(list), id, url)[0];
    assert r in ForUrl(ForId(list, id), url);
    assert r in list;
  }

  /** A packet that does not name a url brings no news of it. */
  lemma SilentNoNews(own: HashMapRecord, p: Packet, id: Text, url: Text)
    requires Silent(p, id, url)
    ensures Group(News(own, p), id, url) == []
  {
    hide ValidUtf8;
    hide Decode;
    hide FromDns;
    hide Sort;
    hide DedupByUrl;
    hide ForUrl;
    hide RecordsOf;
    hide ByNetwork;
    if Incoming(p).Got? && Incoming(p).value.answers != [] {
      var m := Incoming(p).value;
      ReadingGroups(m);
      var list := DedupByUrl(Sort(RecordsOf(m.answers)));
      if Group(ByNetwork(list), id, url) != [] {
        GroupMember(list, id, url);
        var r :| r in list && r.networkId == id && r.url == url;
        RecordsFrom(m.answers, r);
      }
      assert Group(News(own, p), id, url) == [] || Group(News(own, p), id, url) == Group(ByNetwork(list), id, url);
    } else {
      NoNews(own, p);
    }
  }

  lemma {:induction false} SilentReceived(own: HashMapRecord, id: Text, url: Text, g: seq<Record>, packets: seq<Packet>)
    requires Of(id, url, g) && OneOrPair(id, url, g)
    requires forall i :: 0 <= i < |packets| ==> Silent(packets[i], id, url)
    ensures UrlReceived(own, id, url, g, packets) == g
    decreases |packets|
  {
    hide ValidUtf8;
    hide Silent;
    hide Accepts;
    hide News;
    hide Group;
    hide Rule;
    if packets != [] && Accepts(own, packets[0]) {
      SilentNoNews(own, packets[0], id, url);
      assert g + [] == g;
      RuleLeavesTidy(id, url, g);
      SilentReceived(own, id, url, g, packets[1..]);
    }
  }

  lemma ReleaseKeepsUrls(own: HashMapRecord)
    ensures OwnUrls(ReleaseAll(own)) == OwnUrls(own) && ReleaseAll(own).Keys == own.Keys
  {
    hide ValidUtf8;
    forall url ensures url in OwnUrls(ReleaseAll(own)) <==> url in OwnUrls(own) {
      if url in OwnUrls(own) {
        var id, r :| id in own && r in own[id] && r.url == url;
        var i :| 0 <= i < |own[id]| && own[id][i] == r;
        assert Releasing(own[id])[i] in ReleaseAll(own)[id];
      }
      if url in OwnUrls(ReleaseAll(own)) {
        var id, r :| id in own && r in ReleaseAll(own)[id] && r.url == url;
        var i :| 0 <= i < |own[id]| && Releasing(own[id])[i] == r;
        assert own[id][i] in own[id];
      }
    }
  }

  /** What is left of a record with time to live `ttl` after `k` ticks. */
  function Aged(id: Text, url: Text, ttl: nat, k: nat): seq<Record>
    requires ttl < 0x1_0000_0000
  {
    if k < ttl then [Record(id, url, ttl - k)] else []
  }

  lemma QuietStep(n: Node, call: Call, id: Text, url: Text)
    requires Inv(n) && Quiet(call, id, url)
    ensures var g := Group(n.cache, id, url);
            Group(Step(n, call).cache, id, url) == if Succeeds(n.own, call) then Tick(OwnUrls(n.own), g) else g
    ensures Inv(Step(n, call)) && OwnUrls(Step(n, call).own) == OwnUrls(n.own)
    ensures Step(n, call).own == Step(Node(n.own, map[]), call).own
  {
    hide ValidUtf8;
    hide Group;
    hide Tick;
    hide Good;
    hide Silent;
    hide Accepts;
    hide Received;
    hide UrlReceived;
    hide OwnUrls;
    hide PruneAll;
    hide AgeAll;
    StepGroup(n, call, id, url);
    StepKeepsInv(n, call);
    if call.Discover? {
      GoodGroup(n.cache, id, url);
      SilentReceived(n.own, id, url, Group(n.cache, id, url), call.packets);
    }
    ReleaseKeepsUrls(n.own);
  }

  /** A url of another node, cached with time to live t and not named again, has t - k left after k
      successful discovers and is gone from the t-th on, whatever else is received, and failed calls
      do not age it. */
  lemma {:induction false} ExactAgeing(n: Node, calls: seq<Call>, id: Text, url: Text, ttl: u32)
    requires Inv(n) && url !in OwnUrls(n.own) && Group(n.cache, id, url) == Aged(id, url, ttl, 0)
    requires forall i :: 0 <= i < |calls| ==> Quiet(calls[i], id, url)
    ensures Group(Run(n, calls).cache, id, url) == Aged(id, url, ttl, Successes(n.own, calls))
    decreases |calls|
  {
    hide ValidUtf8;
    hide Group;
    hide Tick;
    hide Inv;
    hide Quiet;
    hide Step;
    hide OwnUrls;
    hide Succeeds;
    if calls != [] {
      var mine, next := OwnUrls(n.own), Step(n, calls[0]);
      QuietStep(n, calls[0], id, url);
      if Succeeds(n.own, calls[0]) && ttl > 0 {
        TickOne(mine, Record(id, url, ttl));
        ExactAgeing(next, calls[1..], id, url, ttl - 1);
      } else {
        TickNothing(mine);
        ExactAgeing(next, calls[1..], id, url, ttl);
      }
    }
  }

  /** The node's own urls do not age. */
  lemma {:induction false} OwnUrlsDoNotAge(n: Node, calls: seq<Call>, id: Text, url: Text, ttl: u32)
    requires Inv(n) && url in OwnUrls(n.own) && ttl > 0 && Group(n.cache, id, url) == [Record(id, url, ttl)]
    requires forall i :: 0 <= i < |calls| ==> Quiet(calls[i], id, url)
    ensures Group(Run(n, calls).cache, id, url) == [Record(id, url, ttl)]
    decreases |calls|
  {
    hide ValidUtf8;
    hide Group;
    hide Tick;
    hide Inv;
    hide Quiet;
    hide Step;
    hide OwnUrls;
    hide Succeeds;
    if calls != [] {
      QuietStep(n, calls[0], id, url);
      TickOne(OwnUrls(n.own), Record(id, url, ttl));
      OwnUrlsDoNotAge(Step(n, calls[0]), calls[1..], id, url, ttl);
    }
  }

  // ----- Release -----

  /** What a release leaves of a url, by whether it was cached with the full ttl. */
  function AfterRelease(id: Text, url: Text, full: bool): seq<Record> {
    [Record(id, url, 0)] + if full then [Record(id, url, 255)] else []
  }

  lemma FirstRelease(id: Text, url: Text, g: seq<Record>)
    requires Of(id, url, g) && OneOrPair(id, url, g)
    ensures Rule(id, url, g + [Record(id, url, 0)]) == AfterRelease(id, url, Record(id, url, 255) in g)
  {
    hide ValidUtf8;
    var all := g + [Record(id, url, 0)];
    assert Record(id, url, 0) in all;
    if g != [] {
      assert g[0] in all && g[0] in g;
    }
  }

  lemma NextRelease(id: Text, url: Text, full: bool)
    ensures Rule(id, url, AfterRelease(id, url, full) + [Record(id, url, 0)]) == AfterRelease(id, url, full)
    ensures Rule(id, url, AfterRelease(id, url, full)) == AfterRelease(id, url, full)
  {
    hide ValidUtf8;
    var g := AfterRelease(id, url, full);
    assert g[0] in g && g[0] in g + [Record(id, url, 0)];
    assert full ==> g[1] in g && g[1] in g + [Record(id, url, 0)];
  }

  /** Accepted packets that say nothing of a url but that it is released. */
  predicate Releases(own: HashMapRecord, p: Packet, id: Text, url: Text) {
    Accepts(own, p) && (Group(News(own, p), id, url) == [] || Group(News(own, p), id, url) == [Record(id, url, 0)])
  }

  lemma {:induction false} MoreReleases(own: HashMapRecord, id: Text, url: Text, full: bool, packets: seq<Packet>)
    requires forall i :: 0 <= i < |packets| ==> Releases(own, packets[i], id, url)
    ensures UrlReceived(own, id, url, AfterRelease(id, url, full), packets) == AfterRelease(id, url, full)
    decreases |packets|
  {
    hide ValidUtf8;
    hide Accepts;
    hide News;
    hide Group;
    hide Rule;
    hide AfterRelease;
    if packets != [] {
      assert Releases(own, packets[0], id, url);
      assert AfterRelease(id, url, full) + [] == AfterRelease(id, url, full);
      NextRelease(id, url, full);
      MoreReleases(own, id, url, full, packets[1..]);
    }
  }

  lemma {:induction false} ReleasesReceived(own: HashMapRecord, id: Text, url: Text, g: seq<Record>,
                                            packets: seq<Packet>, k: nat)
    requires Of(id, url, g) && OneOrPair(id, url, g)
    requires forall i :: 0 <= i < |packets| ==> Releases(own, packets[i], id, url)
    requires k < |packets| && Group(News(own, packets[k]), id, url) != []
    ensures UrlReceived(own, id, url, g, packets) == AfterRelease(id, url, Record(id, url, 255) in g)
    decreases |packets|
  {
    hide ValidUtf8;
    hide Accepts;
    hide News;
    hide Group;
    hide Rule;
    hide Of;
    hide OneOrPair;
    hide AfterRelease;
    assert Releases(own, packets[0], id, url);
    if Group(News(own, packets[0]), id, url) == [] {
      assert g + [] == g;
      RuleLeavesTidy(id, url, g);
      ReleasesReceived(own, id, url, g, packets[1..], k - 1);
    } else {
      FirstRelease(id, url, g);
      MoreReleases(own, id, url, Record(id, url, 255) in g, packets[1..]);
    }
  }

  lemma TickReleased(mine: set<Text>, id: Text, url: Text, full: bool)
    requires url !in mine
    ensures Tick(mine, AfterRelease(id, url, full)) == if full then [Record(id, url, 254)] else []
  {
    hide ValidUtf8;
    hide Tick;
    var zero, whole := Record(id, url, 0), Record(id, url, 255);
    if full {
      assert AfterRelease(id, url, full) == [zero, whole];
      TickPair(mine, zero, whole);
      TickOne(mine, whole);
    } else {
      assert AfterRelease(id, url, full) == [zero];
      TickOne(mine, zero);
    }
  }

  /** A released url is gone after the next successful discover exactly when it was not cached with
      the full ttl 255; if it was, the release is taken for superseded and the url lives on with 254.
      How often the release is repeated within the batch makes no difference. */
  lemma ReleaseForgets(n: Node, packets: seq<Packet>, k: nat, id: Text, url: Text)
    requires Inv(n) && url !in OwnUrls(n.own)
    requires forall i :: 0 <= i < |packets| ==> Releases(n.own, packets[i], id, url)
    requires k < |packets| && Group(News(n.own, packets[k]), id, url) != []
    ensures Group(Step(n, Discover(packets, true)).cache, id, url) ==
            if Record(id, url, 255) in Group(n.cache, id, url) then [Record(id, url, 254)] else []
  {
    hide ValidUtf8;
    hide Accepts;
    hide News;
    hide Group;
    hide Good;
    hide Rule;
    hide Step;
    hide Tick;
    hide OwnUrls;
    hide UrlReceived;
    hide AfterRelease;
    hide Of;
    hide OneOrPair;
    var g := Group(n.cache, id, url);
    StepGroup(n, Discover(packets, true), id, url);
    assert forall i :: 0 <= i < |packets| ==> Releases(n.own, packets[i], id, url) ==> Accepts(n.own, packets[i]);
    GoodGroup(n.cache, id, url);
    ReleasesReceived(n.own, id, url, g, packets, k);
    TickReleased(OwnUrls(n.own), id, url, Record(id, url, 255) in g);
  }
}
