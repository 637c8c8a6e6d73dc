/** The multicast DNS node as an object that updates its cache in place. */
module MdnsNode {
  import opened DnsCodec
  import opened MdnsRecords
  import opened MdnsMessages
  import opened MdnsAnnounce
  import opened MdnsCache
  import opened MdnsCacheProofs
  import opened Wrappers
  import DnsPackets

  /** The lists of all keys outside `todo` were replaced. */
  predicate Replaced(m: HashMapRecord, before: HashMapRecord, after: HashMapRecord, todo: set<Text>)
    requires before.Keys == after.Keys
  {
    m.Keys == before.Keys && forall id :: id in m ==> m[id] == if id in todo then before[id] else after[id]
  }

  lemma AllReplaced(m: HashMapRecord, before: HashMapRecord, after: HashMapRecord)
    requires before.Keys == after.Keys && Replaced(m, before, after, {})
    ensures m == after
  {
    hide ValidUtf8;
  }

  method AgeList(mine: set<Text>, s: seq<Record>) returns (r: seq<Record>)
    ensures r == Age(mine, s)
  {
    hide ValidUtf8;
    r := s;
    for i := 0 to |s|
      invariant |r| == |s|
      invariant forall k :: 0 <= k < |s| ==> r[k] == if k < i then AgeRecord(mine, s[k]) else s[k]
    {
      if r[i].url !in mine && r[i].ttl > 0 {
        r := r[i := r[i].(ttl := r[i].ttl - 1)];
      }
    }
  }

  lemma AbsorbStep(m: HashMapRecord, before: HashMapRecord, n: HashMapRecord, own: HashMapRecord,
                   todo: set<Text>, id: Text)
    requires id in todo && id in n && PartlyUpdated(m, before, OnlyOwn(n, own), todo)
    ensures PartlyUpdated(if id in own then Updated(m, map[id := n[id]]) else m, before, OnlyOwn(n, own), todo - {id})
  {
    hide ValidUtf8;
    hide Merge;
  }

  method ReadNames(questions: seq<QuerySection>) returns (names: seq<Text>)
    ensures names == Names(questions)
  {
    hide ValidUtf8;
    names := [];
    var i := |questions|;
    while i > 0
      invariant 0 <= i <= |questions|
      invariant names == Names(questions[i..])
    {
      i := i - 1;
      assert questions[i..][0] == questions[i] && questions[i..][1..] == questions[i + 1..];
      if questions[i].queryClass == 1 && questions[i].queryType == 5 {
        names := [questions[i].domainName] + names;
      }
    }
    assert questions[0..] == questions;
  }

  lemma ReceivedStep(own: HashMapRecord, cache: HashMapRecord, packets: seq<Packet>, i: nat)
    requires i < |packets|
    ensures Received(own, cache, packets[i..]) ==
            if !Accepts(own, packets[i]) then Outcome(false, cache)
            else Received(own, Updated(cache, News(own, packets[i])), packets[i + 1..])
  {
    hide ValidUtf8;
    hide Accepts;
    hide Updated;
    hide News;
    assert packets[i..][0] == packets[i] && packets[i..][1..] == packets[i + 1..];
  }

  lemma UpdatedNothing(m: HashMapRecord)
    ensures Updated(m, map[]) == m
  {
    hide ValidUtf8;
    hide Merge;
  }

  lemma KeepsValid(n: Node, packets: seq<Packet>, queryOk: bool)
    requires Inv(n)
    ensures var r := Discovered(n.own, n.cache, packets, queryOk);
            Inv(n.(cache := r.cache)) && (r.ok ==> forall id, url :: Settled(Group(r.cache, id, url)))
  {
    hide ValidUtf8;
    hide Discovered;
    hide Good;
    hide Group;
    var call, r := MdnsCache.Discover(packets, queryOk), Discovered(n.own, n.cache, packets, queryOk);
    StepKeepsInv(n, call);
    if r.ok {
      SuccessMeans(n, packets, queryOk);
      forall id, url ensures Settled(Group(r.cache, id, url)) {
        StepSettles(n, call, id, url);
      }
    }
  }

  class MulticastDns {
    var own: HashMapRecord
    const cache: MapRecord

    function State(): Node
      reads this, cache
    {
      Node(own, cache.records)
    }

    /** Cached networks are own networks, records are filed right, and every url is tidy. */
    ghost predicate Valid()
      reads this, cache
    {
      Inv(State())
    }

    constructor (own: HashMapRecord)
      ensures Valid()
      ensures this.own == own && fresh(cache) && cache.records == map[]
    {
      this.own := own;
      cache := new MapRecord();
      new;
      StartsTidy(own);
    }

    method UpdateTtl()
      modifies cache
      ensures cache.records == AgeAll(OwnUrls(own), old(cache.records))
    {
      hide ValidUtf8;
      hide Age;
      var mine := OwnUrls(own);
      ghost var before := cache.records;
      ghost var after := AgeAll(mine, before);
      var todo := cache.records.Keys;
      while todo != {}
        invariant todo <= before.Keys == after.Keys
        invariant Replaced(cache.records, before, after, todo)
        decreases |todo|
      {
        var id :| id in todo;
        var aged := AgeList(mine, cache.records[id]);
        cache.records := cache.records[id := aged];
        todo := todo - {id};
      }
      AllReplaced(cache.records, before, after);
    }

    method PruneCache()
      modifies cache
      ensures cache.records == PruneAll(old(cache.records))
    {
      hide ValidUtf8;
      hide Prune;
      ghost var before := cache.records;
      ghost var after := PruneAll(before);
      var todo := cache.records.Keys;
      while todo != {}
        invariant todo <= before.Keys == after.Keys
        invariant Replaced(cache.records, before, after, todo)
        decreases |todo|
      {
        var id :| id in todo;
        cache.records := cache.records[id := Prune(cache.records[id])];
        todo := todo - {id};
      }
      AllReplaced(cache.records, before, after);
    }

    /** Takes what a response says about the node's own networks, one network after the other. */
    method Absorb(n: HashMapRecord)
      modifies cache
      ensures cache.records == Updated(old(cache.records), OnlyOwn(n, own))
    {
      hide ValidUtf8;
      hide Updated;
      ghost var before := cache.records;
      var todo := n.Keys;
      assert PartlyUpdated(before, before, OnlyOwn(n, own), todo);
      while todo != {}
        invariant todo <= n.Keys
        invariant PartlyUpdated(cache.records, before, OnlyOwn(n, own), todo)
        decreases |todo|
      {
        var id :| id in todo;
        AbsorbStep(cache.records, before, n, own, todo, id);
        if id in own {
          cache.Update(map[id := n[id]]);
        }
        todo := todo - {id};
      }
      WhollyUpdated(cache.records, before, OnlyOwn(n, own));
    }

    /** A response goes to the cache, a query is answered; `reply` is what is sent for it. */
    method ReceiveOne(p: Packet) returns (ok: bool, reply: Option<DnsMessage>)
      modifies cache
      ensures ok == Accepts(own, p)
      ensures reply == if Incoming(p).Got? then ReplyTo(own, Incoming(p).value) else None
      ensures cache.records == if ok then Updated(old(cache.records), News(own, p)) else old(cache.records)
    {
      hide ValidUtf8;
      hide Decode;
      hide Updated;
      hide ToDns;
      hide FromDns;
      UpdatedNothing(cache.records);
      var message := DnsPackets.FromRaw(Cut(p.bytes));
      if message.Err? {
        return false, None;
      }
      var m := message.value;
      ok, reply := true, None;
      if m.nbAnswers > 0 {
        var n := FromDnsMessage(m);
        if n.Some? {
          Absorb(n.value);
        }
      } else if m.nbQuestions > 0 {
        var names := ReadNames(m.questions);
        reply := ToDnsResponseMessage(own, names);
        ok := reply.Some? ==> p.replySent;
      }
    }

    method Responder(packets: seq<Packet>) returns (ok: bool)
      modifies cache
      ensures Outcome(ok, cache.records) == Received(own, old(cache.records), packets)
    {
      hide ValidUtf8;
      hide Accepts;
      hide Updated;
      hide News;
      ok := true;
      assert packets[0..] == packets;
      for i := 0 to |packets|
        invariant Received(own, cache.records, packets[i..]) == Received(own, old(cache.records), packets)
      {
        ReceivedStep(own, cache.records, packets, i);
        var reply;
        ok, reply := ReceiveOne(packets[i]);
        if !ok {
          return;
        }
      }
      assert packets[|packets|..] == [];
      ok := true;
    }

    /** After a successful call every cached url has one record, alive. */
    method Discover(packets: seq<Packet>, queryOk: bool) returns (ok: bool)
      requires Valid()
      modifies cache
      ensures Valid()
      ensures Outcome(ok, cache.records) == Discovered(own, old(cache.records), packets, queryOk)
      ensures ok ==> forall id, url :: Settled(Group(cache.records, id, url))
    {
      KeepsValid(State(), packets, queryOk);
      hide ValidUtf8;
      hide Received;
      hide AgeAll;
      hide PruneAll;
      ok := Responder(packets);
      if ok && queryOk {
        UpdateTtl();
        PruneCache();
      }
      ok := ok && queryOk;
    }

    method ZeroOwnTtls()
      modifies this`own
      ensures own == ReleaseAll(old(own))
    {
      hide ValidUtf8;
      hide Releasing;
      ghost var before := own;
      ghost var after := ReleaseAll(before);
      var todo := own.Keys;
      while todo != {}
        invariant todo <= before.Keys == after.Keys
        invariant Replaced(own, before, after, todo)
        decreases |todo|
      {
        var id :| id in todo;
        own := own[id := Releasing(own[id])];
        todo := todo - {id};
      }
      AllReplaced(own, before, after);
    }

    /** Sets every own ttl to 0 and announces that; `ids` are the own networks in some order. */
    method Release(ids: seq<Text>) returns (message: Option<DnsMessage>)
      requires Valid() && Listing(ids, own)
      modifies this`own
      ensures Valid()
      ensures own == ReleaseAll(old(own)) && message == ToDns(own, ids)
    {
      hide ValidUtf8;
      hide ToDns;
      hide Inv;
      hide ReleaseAll;
      hide Listing;
      StepKeepsInv(State(), MdnsCache.Release);
      ZeroOwnTtls();
      message := ToDnsResponseMessage(own, ids);
    }

    method Flush()
      requires Valid()
      modifies cache
      ensures Valid() && cache.records == map[]
    {
      cache.records := map[];
      StartsTidy(own);
    }
  }
}
