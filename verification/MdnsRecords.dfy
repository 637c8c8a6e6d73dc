/** mDNS records and how a cache merges them. */
module MdnsRecords {
  import opened DnsCodec

  datatype Record = Record(networkId: Text, url: Text, ttl: u32)

  type HashMapRecord = map<Text, seq<Record>>

  // ----- The order of records -----

  /** Byte-wise lexicographic order, as on Rust strings. */
  predicate Less(a: seq<byte>, b: seq<byte>)
    decreases |a|
  {
    b != [] && (a == [] || a[0] < b[0] || (a[0] == b[0] && Less(a[1..], b[1..])))
  }

  predicate AtMost(a: Record, b: Record) {
    Less(a.networkId, b.networkId) ||
    (a.networkId == b.networkId && (Less(a.url, b.url) || (a.url == b.url && a.ttl <= b.ttl)))
  }

  lemma {:induction false} LessTotal(a: seq<byte>, b: seq<byte>)
    ensures a == b || Less(a, b) || Less(b, a)
    ensures !Less(a, a)
    ensures !(Less(a, b) && Less(b, a))
    decreases |a|
  {
    if a != [] {
      LessTotal(a[1..], a[1..]);
      if b != [] {
        LessTotal(a[1..], b[1..]);
        if a[0] == b[0] && a[1..] == b[1..] {
          assert a == [a[0]] + a[1..] == b;
        }
      }
    }
  }

  lemma {:induction false} LessTransitive(a: seq<byte>, b: seq<byte>, c: seq<byte>)
    requires Less(a, b) && Less(b, c)
    ensures Less(a, c)
    decreases |a|
  {
    if a != [] && a[0] == b[0] == c[0] {
      LessTransitive(a[1..], b[1..], c[1..]);
    }
  }

  lemma AtMostTotal(a: Record, b: Record)
    ensures AtMost(a, b) || AtMost(b, a)
    ensures AtMost(a, a)
    ensures AtMost(a, b) && AtMost(b, a) ==> a == b
  {
    hide ValidUtf8;
    LessTotal(a.networkId, b.networkId);
    LessTotal(a.url, b.url);
    LessTotal(a.networkId, a.networkId);
    LessTotal(a.url, a.url);
  }

  lemma AtMostTransitive(a: Record, b: Record, c: Record)
    requires AtMost(a, b) && AtMost(b, c)
    ensures AtMost(a, c)
  {
    hide ValidUtf8;
    if Less(a.networkId, b.networkId) && Less(b.networkId, c.networkId) {
      LessTransitive(a.networkId, b.networkId, c.networkId);
    }
    if Less(a.url, b.url) && Less(b.url, c.url) {
      LessTransitive(a.url, b.url, c.url);
    }
  }

  // ----- Sorting -----

  predicate Sorted(s: seq<Record>) {
    forall i, j :: 0 <= i < j < |s| ==> AtMost(s[i], s[j])
  }

  function Insert(r: Record, s: seq<Record>): seq<Record> {
    if s == [] || AtMost(r, s[0]) then [r] + s else [s[0]] + Insert(r, s[1..])
  }

  /** The records of `s` in order; equal records are indistinguishable, so any stable sort agrees. */
  function Sort(s: seq<Record>): seq<Record> {
    if s == [] then [] else Insert(s[0], Sort(s[1..]))
  }

  lemma {:induction false} InsertKeeps(r: Record, s: seq<Record>)
    requires Sorted(s)
    ensures Sorted(Insert(r, s)) && |Insert(r, s)| == |s| + 1
    ensures multiset(Insert(r, s)) == multiset(s) + multiset{r}
    decreases |s|
  {
    hide ValidUtf8;
    hide AtMost;
    if s == [] {
    } else if AtMost(r, s[0]) {
      forall j | 0 <= j < |s| ensures AtMost(r, s[j]) {
        if j > 0 {
          AtMostTransitive(r, s[0], s[j]);
        }
      }
    } else {
      AtMostTotal(r, s[0]);
      InsertKeeps(r, s[1..]);
      assert s == [s[0]] + s[1..];
      var t := Insert(r, s[1..]);
      forall j | 0 <= j < |t| ensures AtMost(s[0], t[j]) {
        assert t[j] in multiset(t);
        if t[j] != r {
          assert t[j] in multiset(s[1..]);
          assert t[j] in s[1..];
        }
      }
    }
  }

  lemma {:induction false} SortSorts(s: seq<Record>)
    ensures Sorted(Sort(s)) && |Sort(s)| == |s| && multiset(Sort(s)) == multiset(s)
    decreases |s|
  {
    hide ValidUtf8;
    hide AtMost;
    if s != [] {
      SortSorts(s[1..]);
      InsertKeeps(s[0], Sort(s[1..]));
      assert s == [s[0]] + s[1..];
    }
  }

  // ----- Merging -----

  function ForUrl(s: seq<Record>, url: Text): seq<Record> {
    if s == [] then [] else (if s[0].url == url then [s[0]] else []) + ForUrl(s[1..], url)
  }

  function Without(s: seq<Record>, url: Text): seq<Record> {
    if s == [] then [] else (if s[0].url == url then [] else [s[0]]) + Without(s[1..], url)
  }

  function Urls(s: seq<Record>): seq<Text> {
    seq(|s|, i requires 0 <= i < |s| => s[i].url)
  }

  /** Vec::dedup: of each run of equal neighbours one is left. */
  function Dedup(urls: seq<Text>): seq<Text> {
    if |urls| <= 1 then urls
    else if urls[0] == urls[1] then Dedup(urls[1..])
    else [urls[0]] + Dedup(urls[1..])
  }

  /** What is left of the drained records of one url. */
  function Keep(group: seq<Record>): seq<Record> {
    if |group| == 1 then group
    else
      (if group != [] && group[0].ttl == 0 then [group[0]] else []) +
      (if group != [] && group[|group| - 1].ttl == 255 then [group[|group| - 1]] else [])
  }

  function KeepEach(urls: seq<Text>, s: seq<Record>): seq<Record>
    decreases |urls|
  {
    if urls == [] then [] else Keep(ForUrl(s, urls[0])) + KeepEach(urls[1..], Without(s, urls[0]))
  }

  /** The merge of two record lists of one network: push, sort, collect the urls, drain each. */
  function Merge(cached: seq<Record>, other: seq<Record>): seq<Record> {
    var s := Sort(cached + other);
    KeepEach(Dedup(Urls(s)), s)
  }

  /** The list of one network after an update. */
  function Entry(self: HashMapRecord, other: HashMapRecord, id: Text): seq<Record>
    requires id in self || id in other
  {
    if id in self && id in other then Merge(self[id], other[id]) else if id in other then other[id] else self[id]
  }

  function Updated(self: HashMapRecord, other: HashMapRecord): HashMapRecord {
    map id | id in self.Keys + other.Keys :: Entry(self, other, id)
  }

  // ----- The simple rule -----

  predicate Filed(s: seq<Record>, id: Text) {
    forall i :: 0 <= i < |s| ==> s[i].networkId == id
  }

  /** What merging means for one url, without sorting anything: a lone record stays; otherwise a
      ttl-0 record stays if there is one, and a ttl-255 record stays if there is one and no greater
      ttl. */
  function Rule(id: Text, url: Text, group: seq<Record>): seq<Record> {
    if |group| == 1 then group
    else
      (if Record(id, url, 0) in group then [Record(id, url, 0)] else []) +
      (if Record(id, url, 255) in group && forall r :: r in group ==> r.ttl <= 255 then [Record(id, url, 255)] else [])
  }

  lemma {:induction false} ForUrlAppend(a: seq<Record>, b: seq<Record>, url: Text)
    ensures ForUrl(a + b, url) == ForUrl(a, url) + ForUrl(b, url)
    decreases |a|
  {
    hide ValidUtf8;
    if a == [] {
      assert a + b == b;
    } else {
      var c := a + b;
      assert c[0] == a[0] && c[1..] == a[1..] + b;
      ForUrlAppend(a[1..], b, url);
      var head := if a[0].url == url then [a[0]] else [];
      assert head + (ForUrl(a[1..], url) + ForUrl(b, url)) == (head + ForUrl(a[1..], url)) + ForUrl(b, url);
    }
  }

  lemma {:induction false} ForUrlMembers(s: seq<Record>, url: Text)
    ensures forall r :: r in ForUrl(s, url) <==> r in s && r.url == url
    ensures |ForUrl(s, url)| <= |s|
    decreases |s|
  {
    hide ValidUtf8;
    if s != [] {
      ForUrlMembers(s[1..], url);
      assert s == [s[0]] + s[1..];
    }
  }

  lemma {:induction false} ForUrlInsert(r: Record, s: seq<Record>, url: Text)
    requires Sorted(s)
    ensures ForUrl(Insert(r, s), url) == if r.url == url then Insert(r, ForUrl(s, url)) else ForUrl(s, url)
    decreases |s|
  {
    hide ValidUtf8;
    hide AtMost;
    if s == [] {
      assert [r][1..] == [];
    } else if AtMost(r, s[0]) {
      assert ([r] + s)[1..] == s;
      ForUrlMembers(s, url);
      var g := ForUrl(s, url);
      if g != [] {
        assert g[0] in s;
        if g[0] != s[0] {
          AtMostTransitive(r, s[0], g[0]);
        }
      }
    } else {
      var t := [s[0]] + Insert(r, s[1..]);
      assert t[1..] == Insert(r, s[1..]);
      ForUrlInsert(r, s[1..], url);
      var g, g1 := ForUrl(s, url), ForUrl(s[1..], url);
      assert ForUrl(t, url) == (if s[0].url == url then [s[0]] else []) + ForUrl(Insert(r, s[1..]), url);
      if s[0].url == url {
        assert g[0] == s[0] && g[1..] == g1;
      } else {
        assert g == g1;
      }
    }
  }

  /** Filtering commutes with sorting. */
  lemma {:induction false} ForUrlSort(s: seq<Record>, url: Text)
    ensures ForUrl(Sort(s), url) == Sort(ForUrl(s, url))
    decreases |s|
  {
    hide ValidUtf8;
    hide AtMost;
    if s != [] {
      ForUrlSort(s[1..], url);
      SortSorts(s[1..]);
      ForUrlInsert(s[0], Sort(s[1..]), url);
      var g := ForUrl(s, url);
      if s[0].url == url {
        assert g[0] == s[0] && g[1..] == ForUrl(s[1..], url);
      } else {
        assert g == ForUrl(s[1..], url);
      }
    }
  }

  lemma {:induction false} ForUrlWithout(s: seq<Record>, gone: Text, url: Text)
    ensures ForUrl(Without(s, gone), url) == if url == gone then [] else ForUrl(s, url)
    decreases |s|
  {
    hide ValidUtf8;
    if s != [] {
      ForUrlWithout(s[1..], gone, url);
      var t := Without(s, gone);
      if s[0].url != gone {
        assert t[0] == s[0] && t[1..] == Without(s[1..], gone);
      } else {
        assert t == Without(s[1..], gone);
      }
    }
  }

  lemma {:induction false} ForUrlSame(s: seq<Record>, mine: Text, url: Text)
    requires forall r :: r in s ==> r.url == mine
    ensures ForUrl(s, url) == if url == mine then s else []
    decreases |s|
  {
    hide ValidUtf8;
    if s != [] {
      ForUrlSame(s[1..], mine, url);
      assert s[0] in s;
    }
  }

  lemma KeepUrl(group: seq<Record>, mine: Text, url: Text)
    requires forall r :: r in group ==> r.url == mine
    ensures ForUrl(Keep(group), url) == if url == mine then Keep(group) else []
    ensures forall r :: r in Keep(group) ==> r in group
  {
    hide ValidUtf8;
    ForUrlSame(Keep(group), mine, url);
  }

  lemma {:induction false} KeepEachUrl(urls: seq<Text>, s: seq<Record>, url: Text)
    ensures ForUrl(KeepEach(urls, s), url) == if url in urls then Keep(ForUrl(s, url)) else []
    decreases |urls|
  {
    hide ValidUtf8;
    hide Keep;
    assert Keep([]) == [] by { KeepNothing(); }
    if urls != [] {
      var first := ForUrl(s, urls[0]);
      ForUrlMembers(s, urls[0]);
      KeepUrl(first, urls[0], url);
      ForUrlAppend(Keep(first), KeepEach(urls[1..], Without(s, urls[0])), url);
      KeepEachUrl(urls[1..], Without(s, urls[0]), url);
      ForUrlWithout(s, urls[0], url);
    }
  }

  lemma KeepNothing()
    ensures Keep([]) == []
  {
  }

  lemma {:induction false} DedupMembers(urls: seq<Text>)
    ensures forall url :: url in Dedup(urls) <==> url in urls
    decreases |urls|
  {
    hide ValidUtf8;
    if |urls| > 1 {
      DedupMembers(urls[1..]);
      assert urls == [urls[0]] + urls[1..];
    }
  }

  lemma MergeUrl(cached: seq<Record>, other: seq<Record>, url: Text)
    ensures ForUrl(Merge(cached, other), url) == Keep(Sort(ForUrl(cached + other, url)))
  {
    hide ValidUtf8;
    hide Keep;
    hide AtMost;
    var s := Sort(cached + other);
    KeepEachUrl(Dedup(Urls(s)), s, url);
    ForUrlSort(cached + other, url);
    DedupMembers(Urls(s));
    KnownUrls(s, url);
    KeepNothing();
  }

  lemma KnownUrls(s: seq<Record>, url: Text)
    ensures url in Urls(s) <==> ForUrl(s, url) != []
  {
    hide ValidUtf8;
    ForUrlMembers(s, url);
    if ForUrl(s, url) != [] {
      var r := ForUrl(s, url)[0];
      assert r in ForUrl(s, url);
      var i :| 0 <= i < |s| && s[i] == r;
      assert Urls(s)[i] == url;
    }
    if url in Urls(s) {
      var i :| 0 <= i < |s| && Urls(s)[i] == url;
      assert s[i] in ForUrl(s, url);
    }
  }

  /** In a sorted group of one url the first has the least ttl and the last the greatest. */
  lemma GroupBounds(id: Text, url: Text, s: seq<Record>)
    requires s != [] && Sorted(s) && forall r :: r in s ==> r.networkId == id && r.url == url
    ensures forall r :: r in s ==> s[0].ttl <= r.ttl <= s[|s| - 1].ttl
  {
    hide ValidUtf8;
    LessTotal(id, id);
    LessTotal(url, url);
    forall r | r in s ensures s[0].ttl <= r.ttl <= s[|s| - 1].ttl {
      var i :| 0 <= i < |s| && s[i] == r;
      assert s[0] in s && s[|s| - 1] in s;
      assert i > 0 ==> AtMost(s[0], r);
      assert i < |s| - 1 ==> AtMost(r, s[|s| - 1]);
    }
  }

  lemma KeepSorted(id: Text, url: Text, s: seq<Record>)
    requires Sorted(s) && forall r :: r in s ==> r.networkId == id && r.url == url
    ensures Keep(s) == Rule(id, url, s)
  {
    hide ValidUtf8;
    hide AtMost;
    hide Sorted;
    if s != [] {
      GroupBounds(id, url, s);
      var first, last := s[0], s[|s| - 1];
      assert first in s && last in s;
      assert first == Record(id, url, first.ttl) && last == Record(id, url, last.ttl);
      assert Record(id, url, 0) in s ==> first.ttl == 0;
    }
  }

  lemma RuleSameMembers(id: Text, url: Text, a: seq<Record>, b: seq<Record>)
    requires |a| == |b| && forall r :: r in a <==> r in b
    ensures Rule(id, url, a) == Rule(id, url, b)
  {
    hide ValidUtf8;
    if |a| == 1 {
      assert a[0] in b;
    }
  }

  lemma SortMembers(s: seq<Record>)
    ensures Sorted(Sort(s)) && |Sort(s)| == |s| && forall r :: r in Sort(s) <==> r in s
  {
    hide ValidUtf8;
    hide AtMost;
    hide Sort;
    SortSorts(s);
    assert forall r :: r in s <==> r in multiset(s);
    assert forall r :: r in Sort(s) <==> r in multiset(Sort(s));
  }

  lemma KeepIsRule(id: Text, url: Text, group: seq<Record>)
    requires forall r :: r in group ==> r.networkId == id && r.url == url
    ensures Keep(Sort(group)) == Rule(id, url, group)
  {
    hide ValidUtf8;
    hide AtMost;
    hide Keep;
    hide Rule;
    hide Sort;
    hide Sorted;
    SortMembers(group);
    KeepSorted(id, url, Sort(group));
    RuleSameMembers(id, url, Sort(group), group);
  }

  /** Merging agrees with the simple rule, url by url. */
  lemma MergeIsRule(id: Text, cached: seq<Record>, other: seq<Record>, url: Text)
    requires Filed(cached, id) && Filed(other, id)
    ensures ForUrl(Merge(cached, other), url) == Rule(id, url, ForUrl(cached, url) + ForUrl(other, url))
  {
    hide ValidUtf8;
    hide Keep;
    hide Rule;
    hide AtMost;
    MergeUrl(cached, other, url);
    ForUrlAppend(cached, other, url);
    ForUrlMembers(cached + other, url);
    KeepIsRule(id, url, ForUrl(cached + other, url));
  }

  // ----- A merged list is sorted, and its groups determine it -----

  predicate Increasing(urls: seq<Text>) {
    forall i, j :: 0 <= i < j < |urls| ==> Less(urls[i], urls[j])
  }

  predicate Ascending(urls: seq<Text>) {
    forall i, j :: 0 <= i < j < |urls| ==> urls[i] == urls[j] || Less(urls[i], urls[j])
  }

  lemma {:induction false} DedupIncreases(urls: seq<Text>)
    requires Ascending(urls)
    ensures Increasing(Dedup(urls))
    decreases |urls|
  {
    hide ValidUtf8;
    if |urls| > 1 {
      var rest := urls[1..];
      DedupIncreases(rest);
      if urls[0] != urls[1] {
        DedupMembers(rest);
        forall u | u in Dedup(rest) ensures Less(urls[0], u) {
          var j :| 1 <= j < |urls| && urls[j] == u;
          if j > 1 && urls[1] != u {
            LessTransitive(urls[0], urls[1], u);
          }
        }
      }
    }
  }

  lemma UrlsAscend(s: seq<Record>, id: Text)
    requires Sorted(s) && Filed(s, id)
    ensures Ascending(Urls(s))
  {
    hide ValidUtf8;
    LessTotal(id, id);
    forall i, j | 0 <= i < j < |s| ensures s[i].url == s[j].url || Less(s[i].url, s[j].url) {
      assert AtMost(s[i], s[j]);
    }
  }

  lemma {:induction false} WithoutMembers(s: seq<Record>, url: Text)
    ensures forall r :: r in Without(s, url) <==> r in s && r.url != url
    decreases |s|
  {
    hide ValidUtf8;
    if s != [] {
      WithoutMembers(s[1..], url);
      assert s == [s[0]] + s[1..];
    }
  }

  lemma SortedCons(r: Record, s: seq<Record>)
    requires Sorted(s) && forall x :: x in s ==> AtMost(r, x)
    ensures Sorted([r] + s)
  {
    hide ValidUtf8;
    hide AtMost;
    forall i, j | 0 <= i < j < |s| + 1 ensures AtMost(([r] + s)[i], ([r] + s)[j]) {
      assert ([r] + s)[j] == s[j - 1] && s[j - 1] in s;
    }
  }

  lemma {:induction false} SiftSorted(s: seq<Record>, url: Text)
    requires Sorted(s)
    ensures Sorted(ForUrl(s, url)) && Sorted(Without(s, url))
    decreases |s|
  {
    hide ValidUtf8;
    hide AtMost;
    if s != [] {
      var rest := s[1..];
      SiftSorted(rest, url);
      ForUrlMembers(rest, url);
      WithoutMembers(rest, url);
      forall x | x in rest ensures AtMost(s[0], x) {
        var i :| 0 <= i < |rest| && rest[i] == x;
        assert s[i + 1] == x;
      }
      if s[0].url == url {
        SortedCons(s[0], ForUrl(rest, url));
      } else {
        SortedCons(s[0], Without(rest, url));
      }
    }
  }

  lemma KeepSort(group: seq<Record>)
    requires Sorted(group)
    ensures Sorted(Keep(group)) && forall r :: r in Keep(group) ==> r in group
  {
    hide ValidUtf8;
    hide AtMost;
    if |group| > 1 {
      assert AtMost(group[0], group[|group| - 1]);
    }
  }

  lemma SortedJoin(a: seq<Record>, b: seq<Record>)
    requires Sorted(a) && Sorted(b) && forall x, y :: x in a && y in b ==> AtMost(x, y)
    ensures Sorted(a + b)
  {
    hide ValidUtf8;
    hide AtMost;
    forall i, j | 0 <= i < j < |a + b| ensures AtMost((a + b)[i], (a + b)[j]) {
      if i < |a| <= j {
        assert a[i] in a && b[j - |a|] in b;
      }
    }
  }

  lemma {:induction false} KeepEachSorted(urls: seq<Text>, s: seq<Record>, id: Text)
    requires Increasing(urls) && Sorted(s) && Filed(s, id)
    ensures Sorted(KeepEach(urls, s))
    ensures forall r :: r in KeepEach(urls, s) ==> r in s && r.url in urls
    decreases |urls|
  {
    hide ValidUtf8;
    hide Keep;
    if urls != [] {
      var url, left := urls[0], Without(s, urls[0]);
      ForUrlMembers(s, url);
      WithoutMembers(s, url);
      SiftSorted(s, url);
      KeepSort(ForUrl(s, url));
      KeepEachSorted(urls[1..], left, id);
      var a, b := Keep(ForUrl(s, url)), KeepEach(urls[1..], left);
      forall x, y | x in a && y in b ensures AtMost(x, y) {
        var j :| 1 <= j < |urls| && urls[j] == y.url;
        assert x in s && y in s;
      }
      SortedJoin(a, b);
    }
  }

  lemma SortFiled(s: seq<Record>, id: Text)
    requires Filed(s, id)
    ensures Filed(Sort(s), id)
  {
    hide ValidUtf8;
    hide Sort;
    SortMembers(s);
    forall i | 0 <= i < |Sort(s)| ensures Sort(s)[i].networkId == id {
      assert Sort(s)[i] in s;
    }
  }

  lemma MergeSorted(id: Text, cached: seq<Record>, other: seq<Record>)
    requires Filed(cached, id) && Filed(other, id)
    ensures Sorted(Merge(cached, other)) && Filed(Merge(cached, other), id)
    ensures forall r :: r in Merge(cached, other) ==> r in cached || r in other
  {
    hide ValidUtf8;
    hide AtMost;
    hide Sort;
    var s := Sort(cached + other);
    SortMembers(cached + other);
    SortFiled(cached + other, id);
    UrlsAscend(s, id);
    DedupIncreases(Urls(s));
    KeepEachSorted(Dedup(Urls(s)), s, id);
    assert forall r :: r in Merge(cached, other) ==> r in cached + other;
  }

  lemma FirstIsLeast(a: seq<Record>, b: seq<Record>)
    requires Sorted(a) && a != [] && (forall url :: ForUrl(a, url) == ForUrl(b, url))
    ensures b != [] && exists i :: 0 <= i < |b| && b[i] == a[0]
  {
    hide ValidUtf8;
    var url := a[0].url;
    ForUrlMembers(a, url);
    ForUrlMembers(b, url);
    assert a[0] in ForUrl(b, url);
    assert a[0] in b;
  }

  /** A sorted list is determined by its groups. */
  lemma {:induction false} GroupsDetermine(a: seq<Record>, b: seq<Record>)
    requires Sorted(a) && Sorted(b) && forall url :: ForUrl(a, url) == ForUrl(b, url)
    ensures a == b
    decreases |a|
  {
    hide ValidUtf8;
    hide AtMost;
    if a == [] {
      if b != [] {
        FirstIsLeast(b, a);
      }
    } else {
      FirstIsLeast(a, b);
      FirstIsLeast(b, a);
      AtMostTotal(a[0], b[0]);
      forall url ensures ForUrl(a[1..], url) == ForUrl(b[1..], url) {
        var k := if a[0].url == url then 1 else 0;
        assert ForUrl(a[1..], url) == ForUrl(a, url)[k..];
        assert ForUrl(b[1..], url) == ForUrl(b, url)[k..];
      }
      GroupsDetermine(a[1..], b[1..]);
      assert a == [a[0]] + a[1..] && b == [b[0]] + b[1..];
    }
  }

  // ----- What the rule keeps -----

  predicate Of(id: Text, url: Text, group: seq<Record>) {
    forall i :: 0 <= i < |group| ==> group[i].networkId == id && group[i].url == url
  }

  /** At most one record, or a release together with an announcement. */
  predicate OneOrPair(id: Text, url: Text, group: seq<Record>) {
    |group| <= 1 || group == [Record(id, url, 0), Record(id, url, 255)]
  }

  predicate Fresh(group: seq<Record>) {
    forall i :: 0 <= i < |group| ==> group[i].ttl == 0 || group[i].ttl == 255
  }

  predicate Overlong(group: seq<Record>) {
    exists i :: 0 <= i < |group| && group[i].ttl > 255
  }

  lemma RuleTidies(id: Text, url: Text, group: seq<Record>)
    requires Of(id, url, group)
    ensures OneOrPair(id, url, Rule(id, url, group)) && Of(id, url, Rule(id, url, group))
  {
    hide ValidUtf8;
  }

  lemma RuleLeavesTidy(id: Text, url: Text, group: seq<Record>)
    requires Of(id, url, group) && OneOrPair(id, url, group)
    ensures Rule(id, url, group) == group
  {
    hide ValidUtf8;
    if |group| > 1 {
      assert group[0] in group && group[1] in group;
    }
  }

  /** A known url is lost by a merge exactly when at least two records meet, none of them a release,
      and the greatest ttl is not 255. */
  lemma UrlLostExactlyWhen(id: Text, cached: seq<Record>, other: seq<Record>, url: Text)
    requires Filed(cached, id) && Filed(other, id)
    ensures ForUrl(Merge(cached, other), url) == [] <==>
            var group := ForUrl(cached, url) + ForUrl(other, url);
            group == [] ||
            (|group| >= 2 && Record(id, url, 0) !in group &&
             (Overlong(group) || Record(id, url, 255) !in group))
  {
    hide ValidUtf8;
    hide Merge;
    MergeIsRule(id, cached, other, url);
    var group := ForUrl(cached, url) + ForUrl(other, url);
    OverlongMembers(group);
  }

  lemma OverlongMembers(group: seq<Record>)
    ensures Overlong(group) <==> exists r :: r in group && r.ttl > 255
  {
    hide ValidUtf8;
    if r :| r in group && r.ttl > 255 {
      var i :| 0 <= i < |group| && group[i] == r;
      assert group[i].ttl > 255;
    }
    if Overlong(group) {
      var i :| 0 <= i < |group| && group[i].ttl > 255;
      assert group[i] in group;
    }
  }

  /** Once the cached records of a url are tidy and the others only announce or release, the url is
      lost exactly when a cached ttl above 255 meets announcements without a release. */
  lemma FreshRuleLoses(id: Text, url: Text, g: seq<Record>, h: seq<Record>)
    requires Of(id, url, g) && Of(id, url, h) && OneOrPair(id, url, g) && Fresh(h) && g != []
    ensures Rule(id, url, g + h) == [] <==> Overlong(g) && h != [] && Record(id, url, 0) !in h
  {
    hide ValidUtf8;
    OverlongMembers(g);
    OverlongMembers(g + h);
    assert g[0] in g && g[0] in g + h;
    if h != [] {
      assert h[0] in h && h[0] in g + h;
      assert h[0] == Record(id, url, 0) || h[0] == Record(id, url, 255);
    }
  }

  lemma FreshAlone(id: Text, url: Text, h: seq<Record>)
    requires Of(id, url, h) && Fresh(h) && h != []
    ensures Rule(id, url, Rule(id, url, h) + h) == Rule(id, url, h)
  {
    hide ValidUtf8;
    var m := Rule(id, url, h);
    assert h[0] in h && h[0] in m + h && (h[0] == Record(id, url, 0) || h[0] == Record(id, url, 255));
    assert forall r :: r in h ==> r.ttl <= 255;
    assert forall r :: r in m + h <==> r in h;
  }

  /** Repeating announcements and releases changes nothing, exactly when no announcement of the url
      meets a cached ttl above 255. */
  lemma FreshRuleTwice(id: Text, url: Text, g: seq<Record>, h: seq<Record>)
    requires Of(id, url, g) && Of(id, url, h) && OneOrPair(id, url, g) && Fresh(h)
    ensures Rule(id, url, Rule(id, url, g + h) + h) == Rule(id, url, g + h) <==>
            !(Overlong(g) && Record(id, url, 255) in h)
  {
    hide ValidUtf8;
    OverlongMembers(g);
    OverlongMembers(g + h);
    if h == [] {
      assert g + h == g && Rule(id, url, g) + h == Rule(id, url, g);
      RuleLeavesTidy(id, url, g);
      RuleTidies(id, url, g);
    } else if g == [] {
      assert g + h == h;
      FreshAlone(id, url, h);
    } else {
      FreshMeets(id, url, g, h);
    }
  }

  lemma FreshMeets(id: Text, url: Text, g: seq<Record>, h: seq<Record>)
    requires Of(id, url, g) && Of(id, url, h) && OneOrPair(id, url, g) && Fresh(h) && g != [] && h != []
    ensures Rule(id, url, Rule(id, url, g + h) + h) == Rule(id, url, g + h) <==>
            !(Overlong(g) && Record(id, url, 255) in h)
  {
    hide ValidUtf8;
    var zero, full := Record(id, url, 0), Record(id, url, 255);
    var m := Rule(id, url, g + h);
    assert h[0] in h && (h[0] == zero || h[0] == full);
    assert forall r :: r in h ==> r == zero || r == full;
    assert forall r :: r in m + h <==> r in m || r in h;
    assert forall r :: r in g + h <==> r in g || r in h;
    OverlongMembers(g);
    if Overlong(g) {
      assert m == if zero in h then [zero] else [];
      if full in h {
        assert full in m + h;
        assert full in Rule(id, url, m + h);
      }
    } else {
      assert forall r :: r in g + h ==> r.ttl <= 255;
      assert m == (if zero in g + h then [zero] else []) + (if full in g + h then [full] else []);
      assert |m| >= 1;
    }
  }

  /** Every url of the list is tidy. */
  ghost predicate Tidy(s: seq<Record>, id: Text) {
    forall url :: OneOrPair(id, url, ForUrl(s, url))
  }

  lemma GroupOf(s: seq<Record>, id: Text, url: Text)
    requires Filed(s, id)
    ensures Of(id, url, ForUrl(s, url))
  {
    hide ValidUtf8;
    ForUrlMembers(s, url);
    var g := ForUrl(s, url);
    forall i | 0 <= i < |g| ensures g[i].networkId == id && g[i].url == url {
      assert g[i] in g;
      assert g[i] in s;
    }
  }

  lemma GroupFresh(s: seq<Record>, url: Text)
    requires Fresh(s)
    ensures Fresh(ForUrl(s, url))
  {
    hide ValidUtf8;
    ForUrlMembers(s, url);
    var g := ForUrl(s, url);
    forall i | 0 <= i < |g| ensures g[i].ttl == 0 || g[i].ttl == 255 {
      assert g[i] in g;
      assert g[i] in s;
    }
  }

  lemma MergeTidies(id: Text, cached: seq<Record>, other: seq<Record>)
    requires Filed(cached, id) && Filed(other, id)
    ensures Tidy(Merge(cached, other), id)
  {
    hide ValidUtf8;
    hide Merge;
    hide Rule;
    hide OneOrPair;
    forall url ensures OneOrPair(id, url, ForUrl(Merge(cached, other), url)) {
      MergeIsRule(id, cached, other, url);
      GroupOf(cached, id, url);
      GroupOf(other, id, url);
      RuleTidies(id, url, ForUrl(cached, url) + ForUrl(other, url));
    }
  }

  lemma TwiceUrl(id: Text, cached: seq<Record>, other: seq<Record>, url: Text)
    requires Filed(cached, id) && Filed(other, id) && Tidy(cached, id) && Fresh(other)
    ensures ForUrl(Merge(Merge(cached, other), other), url) == ForUrl(Merge(cached, other), url) <==>
            !(Overlong(ForUrl(cached, url)) && Record(id, url, 255) in other)
  {
    hide ValidUtf8;
    hide Merge;
    hide Rule;
    hide Overlong;
    MergeSorted(id, cached, other);
    MergeIsRule(id, cached, other, url);
    MergeIsRule(id, Merge(cached, other), other, url);
    GroupOf(cached, id, url);
    GroupOf(other, id, url);
    GroupFresh(other, url);
    ForUrlMembers(other, url);
    assert OneOrPair(id, url, ForUrl(cached, url));
    FreshRuleTwice(id, url, ForUrl(cached, url), ForUrl(other, url));
  }

  /** Repeating a merge of announcements and releases changes nothing, exactly when no announcement
      names a url cached with a ttl above 255. */
  lemma MergeTwice(id: Text, cached: seq<Record>, other: seq<Record>)
    requires Filed(cached, id) && Filed(other, id) && Tidy(cached, id) && Fresh(other)
    ensures Merge(Merge(cached, other), other) == Merge(cached, other) <==>
            forall url :: Record(id, url, 255) in other ==> !Overlong(ForUrl(cached, url))
  {
    hide ValidUtf8;
    hide Merge;
    hide Overlong;
    hide ForUrl;
    hide Tidy;
    var once := Merge(cached, other);
    MergeSorted(id, cached, other);
    MergeSorted(id, once, other);
    forall url
      ensures ForUrl(Merge(once, other), url) == ForUrl(once, url) <==>
              !(Overlong(ForUrl(cached, url)) && Record(id, url, 255) in other)
    {
      TwiceUrl(id, cached, other, url);
    }
    if forall url :: Record(id, url, 255) in other ==> !Overlong(ForUrl(cached, url)) {
      GroupsDetermine(Merge(once, other), once);
    }
  }

  /** No known url is lost to announcements and releases, unless its cached ttl is above 255. */
  lemma KnownUrlKept(id: Text, cached: seq<Record>, other: seq<Record>, url: Text)
    requires Filed(cached, id) && Filed(other, id) && Tidy(cached, id) && Fresh(other)
    requires url in Urls(cached)
    ensures url in Urls(Merge(cached, other)) <==>
            !(Overlong(ForUrl(cached, url)) && ForUrl(other, url) != [] && Record(id, url, 0) !in other)
  {
    hide ValidUtf8;
    hide Merge;
    hide Rule;
    hide Overlong;
    KnownUrls(cached, url);
    KnownUrls(Merge(cached, other), url);
    MergeIsRule(id, cached, other, url);
    GroupOf(cached, id, url);
    GroupOf(other, id, url);
    GroupFresh(other, url);
    ForUrlMembers(other, url);
    assert OneOrPair(id, url, ForUrl(cached, url));
    FreshRuleLoses(id, url, ForUrl(cached, url), ForUrl(other, url));
  }

  /** A cached ttl of 300 makes the next announcement erase the url, and the one after it restore it. */
  lemma LongTtlErases(id: Text, url: Text)
    ensures var announced := [Record(id, url, 255)];
            Merge([Record(id, url, 300)], announced) == [] && Merge([], announced) == announced
  {
    hide ValidUtf8;
    hide AtMost;
    var a, b := Record(id, url, 300), Record(id, url, 255);
    MergeSorted(id, [a], [b]);
    forall u ensures ForUrl(Merge([a], [b]), u) == ForUrl([], u) {
      MergeIsRule(id, [a], [b], u);
      ForUrlSame([a], url, u);
      ForUrlSame([b], url, u);
      assert u == url ==> a in [a] + [b];
    }
    GroupsDetermine(Merge([a], [b]), []);
    MergeSorted(id, [], [b]);
    forall u ensures ForUrl(Merge([], [b]), u) == ForUrl([b], u) {
      MergeIsRule(id, [], [b], u);
      ForUrlSame([b], url, u);
    }
    GroupsDetermine(Merge([], [b]), [b]);
  }
}
