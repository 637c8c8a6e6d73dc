/** What a message carries from one record map to another. */
module MdnsAnnounce {
  import opened DnsCodec
  import opened MdnsRecords
  import opened MdnsMessages
  import opened Wrappers

  // ----- Grouping a list by network -----

  function ForId(s: seq<Record>, id: Text): seq<Record> {
    if s == [] then [] else (if s[0].networkId == id then [s[0]] else []) + ForId(s[1..], id)
  }

  function Ids(s: seq<Record>): set<Text> {
    set r | r in s :: r.networkId
  }

  function ByNetwork(s: seq<Record>): HashMapRecord {
    map id | id in Ids(s) :: ForId(s, id)
  }

  /** No network has two records with one url. */
  predicate Distinct(s: seq<Record>) {
    forall i, j :: 0 <= i < j < |s| ==> s[i].networkId != s[j].networkId || s[i].url != s[j].url
  }

  lemma {:induction false} ForIdMembers(s: seq<Record>, id: Text)
    ensures forall r :: r in ForId(s, id) <==> r in s && r.networkId == id
    decreases |s|
  {
    hide ValidUtf8;
    if s != [] {
      ForIdMembers(s[1..], id);
      assert s == [s[0]] + s[1..];
    }
  }

  lemma {:induction false} ForIdJoin(a: seq<Record>, b: seq<Record>, id: Text)
    ensures ForId(a + b, id) == ForId(a, id) + ForId(b, id)
    decreases |a|
  {
    hide ValidUtf8;
    if a == [] {
      assert a + b == b;
    } else {
      var c := a + b;
      assert c[0] == a[0] && c[1..] == a[1..] + b;
      ForIdJoin(a[1..], b, id);
      var head := if a[0].networkId == id then [a[0]] else [];
      assert head + (ForId(a[1..], id) + ForId(b, id)) == (head + ForId(a[1..], id)) + ForId(b, id);
    }
  }

  lemma ForIdAppend(s: seq<Record>, r: Record, id: Text)
    ensures ForId(s + [r], id) == ForId(s, id) + if r.networkId == id then [r] else []
  {
    hide ValidUtf8;
    ForIdJoin(s, [r], id);
    assert [r][1..] == [];
  }

  lemma {:induction false} ForIdSame(s: seq<Record>, id: Text)
    requires Filed(s, id)
    ensures ForId(s, id) == s
    decreases |s|
  {
    hide ValidUtf8;
    if s != [] {
      ForIdSame(s[1..], id);
    }
  }

  lemma ForIdFiled(s: seq<Record>, id: Text)
    ensures Filed(ForId(s, id), id)
  {
    hide ValidUtf8;
    ForIdMembers(s, id);
    var l := ForId(s, id);
    forall i | 0 <= i < |l| ensures l[i].networkId == id {
      assert l[i] in l;
    }
  }

  lemma {:induction false} ForIdSorted(s: seq<Record>, id: Text)
    requires Sorted(s)
    ensures Sorted(ForId(s, id))
    decreases |s|
  {
    hide ValidUtf8;
    hide AtMost;
    if s != [] {
      var rest := s[1..];
      ForIdSorted(rest, id);
      ForIdMembers(rest, id);
      forall x | x in rest ensures AtMost(s[0], x) {
        var i :| 0 <= i < |rest| && rest[i] == x;
        assert s[i + 1] == x;
      }
      if s[0].networkId == id {
        SortedCons(s[0], ForId(rest, id));
      }
    }
  }

  lemma {:induction false} ForIdDistinct(s: seq<Record>, id: Text)
    requires Distinct(s)
    ensures Distinct(ForId(s, id))
    decreases |s|
  {
    hide ValidUtf8;
    if s != [] {
      var rest := s[1..];
      ForIdDistinct(rest, id);
      ForIdMembers(rest, id);
      var l := ForId(rest, id);
      if s[0].networkId == id {
        forall j | 0 <= j < |l| ensures l[j].url != s[0].url {
          assert l[j] in l;
          var i :| 0 <= i < |rest| && rest[i] == l[j];
          assert s[i + 1] == l[j];
        }
      }
    }
  }

  ghost predicate OneEach(s: seq<Record>) {
    forall url :: |ForUrl(s, url)| <= 1
  }

  lemma OneEachHead(s: seq<Record>)
    requires s != []
    ensures OneEach(s) <==> OneEach(s[1..]) && ForUrl(s[1..], s[0].url) == []
  {
    hide ValidUtf8;
    hide ForUrl;
    var rest := s[1..];
    forall url ensures |ForUrl(s, url)| == |ForUrl(rest, url)| + if s[0].url == url then 1 else 0 {
      ForUrlHead(s, url);
    }
    if OneEach(s) {
      assert |ForUrl(s, s[0].url)| <= 1;
      forall url ensures |ForUrl(rest, url)| <= 1 {
        assert |ForUrl(s, url)| <= 1;
      }
    }
    if OneEach(rest) && ForUrl(rest, s[0].url) == [] {
      forall url ensures |ForUrl(s, url)| <= 1 {
        assert |ForUrl(rest, url)| <= 1;
      }
    }
  }

  lemma ForUrlHead(s: seq<Record>, url: Text)
    requires s != []
    ensures |ForUrl(s, url)| == |ForUrl(s[1..], url)| + if s[0].url == url then 1 else 0
  {
    hide ValidUtf8;
  }

  /** A list filed under one network has distinct urls exactly when no url has two records. */
  lemma {:induction false} DistinctCounts(s: seq<Record>, id: Text)
    requires Filed(s, id)
    ensures Distinct(s) <==> OneEach(s)
    decreases |s|
  {
    hide ValidUtf8;
    if s != [] {
      DistinctCounts(s[1..], id);
      DistinctHead(s, id);
      OneEachHead(s);
    }
  }

  lemma DistinctHead(s: seq<Record>, id: Text)
    requires s != [] && Filed(s, id)
    ensures Distinct(s) <==> Distinct(s[1..]) && ForUrl(s[1..], s[0].url) == []
  {
    hide ValidUtf8;
    var rest, url := s[1..], s[0].url;
    KnownUrls(rest, url);
    assert forall i :: 0 <= i < |rest| ==> Urls(rest)[i] == s[i + 1].url;
    if Distinct(rest) && url !in Urls(rest) {
      forall i, j | 0 <= i < j < |s| ensures s[i].url != s[j].url {
        if i == 0 {
          assert Urls(rest)[j - 1] == s[j].url;
        } else {
          assert rest[i - 1] == s[i] && rest[j - 1] == s[j];
          assert s[i].networkId == s[j].networkId;
        }
      }
    }
    if Distinct(s) {
      forall j | 0 <= j < |rest| ensures Urls(rest)[j] != url {
        assert s[0].networkId == s[j + 1].networkId;
      }
    }
  }

  // ----- Reading a message -----

  lemma Between(a: Record, b: Record, c: Record)
    requires AtMost(a, b) && AtMost(b, c) && a.networkId == c.networkId && a.url == c.url
    ensures b.networkId == a.networkId && b.url == a.url
  {
    hide ValidUtf8;
    LessTotal(a.networkId, b.networkId);
    LessTotal(a.url, b.url);
    LessTotal(a.networkId, a.networkId);
    LessTotal(a.url, a.url);
  }

  lemma {:induction false} DedupByUrlDistinct(s: seq<Record>)
    requires Sorted(s)
    ensures var d := DedupByUrl(s);
            Sorted(d) && Distinct(d) && forall r :: r in d ==> r in s
    decreases |s|
  {
    hide ValidUtf8;
    hide AtMost;
    if |s| > 1 {
      if s[0].url == s[1].url {
        var t := [s[0]] + s[2..];
        assert Sorted(t);
        DedupByUrlDistinct(t);
        assert forall r :: r in t ==> r in s;
      } else {
        var rest := s[1..];
        DedupByUrlDistinct(rest);
        var d := DedupByUrl(rest);
        forall x | x in d ensures AtMost(s[0], x) && (x.networkId != s[0].networkId || x.url != s[0].url) {
          assert x in rest;
          var i :| 0 <= i < |rest| && rest[i] == x;
          assert s[i + 1] == x;
          if x.networkId == s[0].networkId && x.url == s[0].url && i > 0 {
            Between(s[0], s[1], x);
          }
        }
        SortedCons(s[0], d);
      }
    }
  }

  lemma MergeLast(id: Text, s: seq<Record>, r: Record)
    requires Filed(s + [r], id) && Sorted(s + [r]) && Distinct(s + [r])
    ensures Merge(s, [r]) == s + [r]
  {
    hide ValidUtf8;
    hide AtMost;
    hide Merge;
    hide Rule;
    assert Filed(s, id) by { assert forall i :: 0 <= i < |s| ==> (s + [r])[i] == s[i]; }
    assert Filed([r], id) by { assert (s + [r])[|s|] == r; }
    MergeSorted(id, s, [r]);
    DistinctCounts(s + [r], id);
    forall url ensures ForUrl(Merge(s, [r]), url) == ForUrl(s + [r], url) {
      MergeIsRule(id, s, [r], url);
      ForUrlAppend(s, [r], url);
      GroupOf(s + [r], id, url);
      RuleLeavesTidy(id, url, ForUrl(s + [r], url));
    }
    GroupsDetermine(Merge(s, [r]), s + [r]);
  }

  lemma AddToList(s: seq<Record>, r: Record)
    requires Sorted(s + [r]) && Distinct(s + [r])
    ensures Entry(ByNetwork(s), One(r), r.networkId) == ForId(s + [r], r.networkId)
  {
    hide ValidUtf8;
    hide AtMost;
    hide Merge;
    hide ForId;
    var id := r.networkId;
    ForIdAppend(s, r, id);
    if id in Ids(s) {
      ForIdFiled(s + [r], id);
      ForIdSorted(s + [r], id);
      ForIdDistinct(s + [r], id);
      MergeLast(id, ForId(s, id), r);
    } else {
      NoMembers(s, id);
    }
  }

  lemma AddOne(s: seq<Record>, r: Record)
    requires Sorted(s + [r]) && Distinct(s + [r])
    ensures Updated(ByNetwork(s), One(r)) == ByNetwork(s + [r])
  {
    hide ValidUtf8;
    hide AtMost;
    hide Merge;
    hide ForId;
    hide Sorted;
    hide Distinct;
    var m, m' := ByNetwork(s), ByNetwork(s + [r]);
    assert Ids(s + [r]) == Ids(s) + {r.networkId};
    AddToList(s, r);
    forall x | x in m' ensures x in Updated(m, One(r)) && Updated(m, One(r))[x] == m'[x] {
      ForIdAppend(s, r, x);
    }
  }

  lemma {:induction false} NoMembers(s: seq<Record>, id: Text)
    requires id !in Ids(s)
    ensures ForId(s, id) == []
    decreases |s|
  {
    hide ValidUtf8;
    if s != [] {
      assert s[0] in s;
      NoMembers(s[1..], id);
    }
  }

  lemma {:induction false} AddAllGroups(done: seq<Record>, s: seq<Record>)
    requires Sorted(done + s) && Distinct(done + s)
    ensures AddAll(ByNetwork(done), s) == ByNetwork(done + s)
    decreases |s|
  {
    hide ValidUtf8;
    hide AtMost;
    hide Updated;
    hide ByNetwork;
    hide One;
    if s == [] {
      assert done + s == done;
    } else {
      var next := done + [s[0]];
      assert next + s[1..] == done + s;
      assert next == (done + s)[..|done| + 1];
      AddOne(done, s[0]);
      AddAllGroups(next, s[1..]);
    }
  }

  /** Reading a message groups its records by network: sorted, each url of a network once. */
  lemma ReadingGroups(m: DnsMessage)
    requires m.answers != []
    ensures var list := DedupByUrl(Sort(RecordsOf(m.answers)));
            FromDns(m) == Some(ByNetwork(list)) && Sorted(list) && Distinct(list) &&
            forall r :: r in list ==> r in RecordsOf(m.answers)
  {
    hide ValidUtf8;
    hide AtMost;
    hide Sort;
    hide DedupByUrl;
    hide RecordsOf;
    var sorted := Sort(RecordsOf(m.answers));
    SortMembers(RecordsOf(m.answers));
    DedupByUrlDistinct(sorted);
    var list := DedupByUrl(sorted);
    assert [] + list == list;
    assert ByNetwork([]) == map[];
    AddAllGroups([], list);
  }

  // ----- Announcing the records of one network -----

  /** Every length and the number of records fit in 16 bits. */
  predicate InRange(s: seq<Record>) {
    |s| < 0x1_0000 && forall i :: 0 <= i < |s| ==> |s[i].networkId| < 0x1_0000 && |s[i].url| < 0x1_0000
  }

  lemma {:induction false} RecordsOfAnswers(s: seq<Record>)
    ensures RecordsOf(Answers(s)) == s
    decreases |s|
  {
    hide ValidUtf8;
    if s != [] {
      assert Answers(s)[0] == Answer(s[0]) && Answers(s)[1..] == Answers(s[1..]);
      RecordsOfAnswers(s[1..]);
    }
  }

  lemma ResponseFits(s: seq<Record>)
    requires InRange(s)
    ensures Fits(ResponseOf(Answers(s)))
  {
    hide ValidUtf8;
    forall i | 0 <= i < |s| ensures AnswerFits(Answers(s)[i]) {
      assert |s[i].networkId| < 0x1_0000 && |s[i].url| < 0x1_0000;
    }
  }

  /** The response for one network answers with its records in their order, and none if there are none. */
  lemma ResponseIs(own: HashMapRecord, id: Text)
    ensures ToDns(own, [id]) == if id in own && own[id] != [] then Some(ResponseOf(Answers(own[id]))) else None
  {
    hide ValidUtf8;
    hide ResponseOf;
    assert [id][1..] == [];
    assert AnswersFor(own, []) == [];
    if id in own {
      assert AnswersFor(own, [id]) == Answers(own[id]) + [] == Answers(own[id]);
    }
  }

  lemma {:induction false} NothingToDedup(s: seq<Record>, id: Text)
    requires Filed(s, id) && Distinct(s)
    ensures DedupByUrl(s) == s
    decreases |s|
  {
    hide ValidUtf8;
    if |s| > 1 {
      assert s[0].networkId == s[1].networkId;
      NothingToDedup(s[1..], id);
    }
  }

  lemma SortDistinct(s: seq<Record>, id: Text)
    requires Filed(s, id)
    ensures Distinct(Sort(s)) <==> Distinct(s)
  {
    hide ValidUtf8;
    hide AtMost;
    hide Sort;
    hide Distinct;
    SortFiled(s, id);
    DistinctCounts(s, id);
    DistinctCounts(Sort(s), id);
    forall url ensures |ForUrl(Sort(s), url)| == |ForUrl(s, url)| {
      ForUrlSort(s, url);
      SortMembers(ForUrl(s, url));
    }
    if OneEach(Sort(s)) {
      forall url ensures |ForUrl(s, url)| <= 1 {
        assert |ForUrl(Sort(s), url)| <= 1;
      }
    }
  }

  /** One network's records, read back from their own answers: the same records in order, exactly when
      no url is repeated. */
  lemma ReadBack(id: Text, s: seq<Record>)
    requires Filed(s, id) && s != []
    ensures FromDns(ResponseOf(Answers(s))) == Some(map[id := Sort(s)]) <==> Distinct(s)
  {
    hide ValidUtf8;
    hide AtMost;
    hide Sort;
    hide DedupByUrl;
    hide Distinct;
    hide FromDns;
    hide RecordsOf;
    var m, list := ResponseOf(Answers(s)), DedupByUrl(Sort(s));
    ReadingGroups(m);
    RecordsOfAnswers(s);
    SortDistinct(s, id);
    SortFiled(s, id);
    SortMembers(s);
    ListFiled(list, s, id);
    ForIdSame(list, id);
    if Distinct(s) {
      NothingToDedup(Sort(s), id);
      assert list[0] in list;
      assert Ids(list) == {id};
      assert ByNetwork(list) == map[id := Sort(s)];
    }
    if FromDns(m) == Some(map[id := Sort(s)]) {
      assert id in ByNetwork(list) && ByNetwork(list)[id] == list;
      assert ByNetwork(list) == map[id := Sort(s)];
      assert list == Sort(s);
    }
  }

  lemma ListFiled(list: seq<Record>, s: seq<Record>, id: Text)
    requires Filed(s, id) && forall r :: r in list ==> r in s
    ensures Filed(list, id)
  {
    hide ValidUtf8;
    forall i | 0 <= i < |list| ensures list[i].networkId == id {
      assert list[i] in s;
    }
  }

  /** End to end: what a node announces for a network arrives, whatever bytes follow the packet, as
      its own records sorted, exactly when no url is repeated. */
  lemma AnnouncementArrives(own: HashMapRecord, id: Text, trailing: seq<byte>)
    requires id in own && own[id] != [] && Filed(own[id], id) && InRange(own[id])
    ensures ToDns(own, [id]).Some?
    ensures var packet := Encode(ToDns(own, [id]).value) + trailing;
            Decode(packet).Got? && Decode(packet).rest == trailing &&
            (FromDns(Decode(packet).value) == Some(map[id := Sort(own[id])]) <==> Distinct(own[id])) &&
            Sorted(Sort(own[id])) && multiset(Sort(own[id])) == multiset(own[id])
  {
    hide ValidUtf8;
    hide AtMost;
    hide Sort;
    hide Encode;
    hide Decode;
    hide FromDns;
    hide Fits;
    hide ResponseOf;
    hide Answers;
    var s := own[id];
    ResponseIs(own, id);
    ResponseFits(s);
    DecodeAfterEncode(ResponseOf(Answers(s)), trailing);
    ReadBack(id, s);
    SortSorts(s);
  }

  predicate NoEqualNeighbours(s: seq<Record>) {
    forall i :: 0 <= i < |s| - 1 ==> s[i].url != s[i + 1].url
  }

  lemma {:induction false} DedupByUrlShortens(s: seq<Record>)
    ensures |DedupByUrl(s)| <= |s|
    ensures DedupByUrl(s) == s <==> NoEqualNeighbours(s)
    decreases |s|
  {
    hide ValidUtf8;
    if |s| > 1 {
      if s[0].url == s[1].url {
        DedupByUrlShortens([s[0]] + s[2..]);
      } else {
        var rest := s[1..];
        DedupByUrlShortens(rest);
        assert s == [s[0]] + rest;
        assert forall i :: 0 <= i < |rest| ==> rest[i] == s[i + 1];
        if NoEqualNeighbours(rest) {
          forall i | 0 <= i < |s| - 1 ensures s[i].url != s[i + 1].url {
            if i > 0 {
              assert rest[i - 1].url != rest[i - 1 + 1].url;
            }
          }
        }
        if NoEqualNeighbours(s) {
          forall i | 0 <= i < |rest| - 1 ensures rest[i].url != rest[i + 1].url {
            assert s[i + 1].url != s[i + 1 + 1].url;
          }
        }
      }
    }
  }

  lemma FirstInNetwork(a: seq<Record>, b: seq<Record>)
    requires a != [] && forall id :: ForId(a, id) == ForId(b, id)
    ensures exists i :: 0 <= i < |b| && b[i] == a[0]
  {
    hide ValidUtf8;
    var id := a[0].networkId;
    ForIdMembers(a, id);
    ForIdMembers(b, id);
    assert a[0] in ForId(b, id);
    assert a[0] in b;
  }

  /** A sorted list is determined by its networks' lists. */
  lemma {:induction false} NetworksDetermine(a: seq<Record>, b: seq<Record>)
    requires Sorted(a) && Sorted(b) && forall id :: ForId(a, id) == ForId(b, id)
    ensures a == b
    decreases |a|
  {
    hide ValidUtf8;
    hide AtMost;
    if a == [] {
      if b != [] {
        FirstInNetwork(b, a);
      }
    } else {
      FirstInNetwork(a, b);
      FirstInNetwork(b, a);
      AtMostTotal(a[0], b[0]);
      forall id ensures ForId(a[1..], id) == ForId(b[1..], id) {
        var k := if a[0].networkId == id then 1 else 0;
        assert ForId(a[1..], id) == ForId(a, id)[k..];
        assert ForId(b[1..], id) == ForId(b, id)[k..];
      }
      NetworksDetermine(a[1..], b[1..]);
      assert a == [a[0]] + a[1..] && b == [b[0]] + b[1..];
    }
  }

  lemma SameNetworks(a: seq<Record>, b: seq<Record>)
    requires Sorted(a) && Sorted(b) && ByNetwork(a) == ByNetwork(b)
    ensures a == b
  {
    hide ValidUtf8;
    hide AtMost;
    hide ForId;
    assert Ids(a) == ByNetwork(a).Keys && Ids(b) == ByNetwork(b).Keys;
    forall id ensures ForId(a, id) == ForId(b, id) {
      if id in Ids(a) {
        assert ByNetwork(a)[id] == ByNetwork(b)[id];
      } else {
        NoMembers(a, id);
        NoMembers(b, id);
      }
    }
    NetworksDetermine(a, b);
  }

  /** Reading a message keeps every record of it exactly when, in sorted order, no two neighbours have
      one url, even neighbours of different networks. */
  lemma NothingDroppedExactlyWhen(m: DnsMessage)
    requires m.answers != []
    ensures FromDns(m) == Some(ByNetwork(Sort(RecordsOf(m.answers)))) <==>
            NoEqualNeighbours(Sort(RecordsOf(m.answers)))
  {
    hide ValidUtf8;
    hide AtMost;
    hide Sort;
    hide DedupByUrl;
    hide NoEqualNeighbours;
    hide RecordsOf;
    hide ByNetwork;
    hide FromDns;
    var sorted := Sort(RecordsOf(m.answers));
    SortMembers(RecordsOf(m.answers));
    ReadingGroups(m);
    DedupByUrlShortens(sorted);
    if FromDns(m) == Some(ByNetwork(sorted)) {
      SameNetworks(DedupByUrl(sorted), sorted);
    }
  }

  /** Reading compares urls across networks: of two networks announcing one url in one packet, the
      later one is dropped. */
  lemma SharedUrlIsDropped(id: Text, id': Text, url: Text, ttl: u32)
    requires Less(id, id')
    ensures var a, b := Record(id, url, ttl), Record(id', url, ttl);
            FromDns(ResponseOf(Answers([a, b]))) == Some(map[id := [a]])
  {
    hide ValidUtf8;
    hide FromDns;
    hide Answers;
    var a, b := Record(id, url, ttl), Record(id', url, ttl);
    var m := ResponseOf(Answers([a, b]));
    assert |Answers([a, b])| == 2 by { TwoAnswers(a, b); }
    ReadingGroups(m);
    RecordsOfAnswers([a, b]);
    assert AtMost(a, b);
    assert Sort([b]) == [b] by { SortOne(b); }
    assert [a, b][1..] == [b];
    assert Sort([a, b]) == Insert(a, [b]) == [a] + [b];
    assert [a] + ([a] + [b])[2..] == [a];
    assert ForId([a], id) == [a] by { ForIdSame([a], id); }
    assert Ids([a]) == {id};
    assert ByNetwork([a]) == map[id := [a]];
  }

  lemma TwoAnswers(a: Record, b: Record)
    ensures |Answers([a, b])| == 2
  {
  }

  lemma SortOne(r: Record)
    ensures Sort([r]) == [r]
  {
    hide ValidUtf8;
    assert [r][1..] == [];
  }

  // ----- Announcing every network at once -----

  /** The records of the listed networks, one network after the other. */
  function All(own: HashMapRecord, ids: seq<Text>): seq<Record> {
    if ids == [] then [] else (if ids[0] in own then own[ids[0]] else []) + All(own, ids[1..])
  }

  predicate WellFiled(own: HashMapRecord) {
    forall id :: id in own ==> Filed(own[id], id)
  }

  /** `ids` are the networks of `own`, each once, in some order. */
  ghost predicate Listing(ids: seq<Text>, own: HashMapRecord) {
    (forall id :: id in ids <==> id in own) && forall i, j :: 0 <= i < j < |ids| ==> ids[i] != ids[j]
  }

  lemma {:induction false} AnswersForAll(own: HashMapRecord, ids: seq<Text>)
    ensures AnswersFor(own, ids) == Answers(All(own, ids))
    decreases |ids|
  {
    hide ValidUtf8;
    hide Answer;
    if ids != [] {
      AnswersForAll(own, ids[1..]);
      var first := if ids[0] in own then own[ids[0]] else [];
      assert Answers(first + All(own, ids[1..])) == Answers(first) + Answers(All(own, ids[1..]));
    }
  }

  lemma {:induction false} ForIdAll(own: HashMapRecord, ids: seq<Text>, id: Text)
    requires WellFiled(own) && forall i, j :: 0 <= i < j < |ids| ==> ids[i] != ids[j]
    ensures ForId(All(own, ids), id) == if id in ids && id in own then own[id] else []
    decreases |ids|
  {
    hide ValidUtf8;
    hide ForId;
    if ids == [] {
      NoMembers([], id);
    } else {
      var first, rest := if ids[0] in own then own[ids[0]] else [], ids[1..];
      ForIdAll(own, rest, id);
      ForIdJoin(first, All(own, rest), id);
      if id == ids[0] {
        assert forall i :: 0 <= i < |rest| ==> rest[i] == ids[i + 1] != id;
        ForIdSame(first, id);
      } else {
        assert id in ids <==> id in rest;
        NoMembers(first, id);
      }
    }
  }

  lemma {:induction false} ForIdInsert(r: Record, s: seq<Record>, id: Text)
    requires Sorted(s)
    ensures ForId(Insert(r, s), id) == if r.networkId == id then Insert(r, ForId(s, id)) else ForId(s, id)
    decreases |s|
  {
    hide ValidUtf8;
    hide AtMost;
    if s == [] {
      assert [r][1..] == [];
    } else if AtMost(r, s[0]) {
      assert ([r] + s)[1..] == s;
      ForIdMembers(s, id);
      var g := ForId(s, id);
      if g != [] {
        assert g[0] in s;
        if g[0] != s[0] {
          AtMostTransitive(r, s[0], g[0]);
        }
      }
    } else {
      var t := [s[0]] + Insert(r, s[1..]);
      assert t[1..] == Insert(r, s[1..]);
      ForIdInsert(r, s[1..], id);
      var g, g1 := ForId(s, id), ForId(s[1..], id);
      assert ForId(t, id) == (if s[0].networkId == id then [s[0]] else []) + ForId(Insert(r, s[1..]), id);
      if s[0].networkId == id {
        assert g[0] == s[0] && g[1..] == g1;
      } else {
        assert g == g1;
      }
    }
  }

  lemma {:induction false} ForIdSort(s: seq<Record>, id: Text)
    ensures ForId(Sort(s), id) == Sort(ForId(s, id))
    decreases |s|
  {
    hide ValidUtf8;
    hide AtMost;
    if s != [] {
      ForIdSort(s[1..], id);
      SortSorts(s[1..]);
      ForIdInsert(s[0], Sort(s[1..]), id);
      var g := ForId(s, id);
      if s[0].networkId == id {
        assert g[0] == s[0] && g[1..] == ForId(s[1..], id);
      } else {
        assert g == ForId(s[1..], id);
      }
    }
  }

  /** Every network that has records, sorted. */
  function SortedMap(own: HashMapRecord): HashMapRecord {
    map id | id in own && own[id] != [] :: Sort(own[id])
  }

  lemma ByNetworkAll(own: HashMapRecord, ids: seq<Text>)
    requires WellFiled(own) && Listing(ids, own)
    ensures ByNetwork(Sort(All(own, ids))) == SortedMap(own)
  {
    hide ValidUtf8;
    hide AtMost;
    hide Sort;
    hide ForId;
    hide All;
    hide Filed;
    var all := All(own, ids);
    SortMembers(all);
    forall id ensures id in Ids(Sort(all)) <==> id in SortedMap(own) {
      ForIdAll(own, ids, id);
      HasMembers(all, id);
      assert id in Ids(Sort(all)) <==> id in Ids(all);
    }
    forall id | id in SortedMap(own) ensures ByNetwork(Sort(all))[id] == SortedMap(own)[id] {
      ForIdAll(own, ids, id);
      ForIdSort(all, id);
    }
  }

  lemma HasMembers(s: seq<Record>, id: Text)
    ensures id in Ids(s) <==> ForId(s, id) != []
  {
    hide ValidUtf8;
    ForIdMembers(s, id);
    if ForId(s, id) != [] {
      assert ForId(s, id)[0] in s;
    }
  }

  /** End to end for all networks in one packet: what a node announces arrives as its own records, each
      network sorted, exactly when no two neighbours of the whole sorted announcement share a url. */
  lemma AnnouncementsArrive(own: HashMapRecord, ids: seq<Text>, trailing: seq<byte>)
    requires WellFiled(own) && Listing(ids, own) && All(own, ids) != [] && InRange(All(own, ids))
    ensures ToDns(own, ids) == Some(ResponseOf(Answers(All(own, ids))))
    ensures var m := ResponseOf(Answers(All(own, ids)));
            Decode(Encode(m) + trailing) == Got(m, trailing) &&
            (FromDns(m) == Some(SortedMap(own)) <==> NoEqualNeighbours(Sort(All(own, ids))))
  {
    hide ValidUtf8;
    hide AtMost;
    hide Sort;
    hide Encode;
    hide Decode;
    hide FromDns;
    hide Fits;
    hide InRange;
    hide ByNetwork;
    hide RecordsOf;
    hide NoEqualNeighbours;
    hide SortedMap;
    var all := All(own, ids);
    AnswersForAll(own, ids);
    ResponseFits(all);
    DecodeAfterEncode(ResponseOf(Answers(all)), trailing);
    RecordsOfAnswers(all);
    NothingDroppedExactlyWhen(ResponseOf(Answers(all)));
    ByNetworkAll(own, ids);
  }
}
