/** Queries: what a node asks, what it is answered, and when a packet makes a discover fail. */
module MdnsQueries {
  import opened DnsCodec
  import opened WireLayout
  import opened MdnsRecords
  import opened MdnsMessages
  import opened MdnsAnnounce
  import opened MdnsCache
  import opened Wrappers

  // ----- What a query is answered with -----

  /** Some INET CNAME question names this network. */
  ghost predicate AsksFor(questions: seq<QuerySection>, id: Text) {
    exists i :: 0 <= i < |questions| && questions[i].queryClass == 1 && questions[i].queryType == 5 &&
                questions[i].domainName == id
  }

  /** One of the node's own records, filed under a network asked for, as an answer. */
  ghost predicate Authoritative(own: HashMapRecord, questions: seq<QuerySection>, a: AnswerSection) {
    exists id, i :: id in own && AsksFor(questions, id) && 0 <= i < |own[id]| && a == Answer(own[id][i])
  }

  lemma {:induction false} NamesAreAsked(questions: seq<QuerySection>, id: Text)
    ensures id in Names(questions) <==> AsksFor(questions, id)
  {
    hide ValidUtf8;
    if questions != [] {
      NamesAreAsked(questions[1..], id);
      if AsksFor(questions[1..], id) {
        var i :| 0 <= i < |questions[1..]| && questions[1..][i].queryClass == 1 && questions[1..][i].queryType == 5 &&
                 questions[1..][i].domainName == id;
        assert questions[i + 1].domainName == id;
      }
      if AsksFor(questions, id) {
        var i :| 0 <= i < |questions| && questions[i].queryClass == 1 && questions[i].queryType == 5 &&
                 questions[i].domainName == id;
        if i > 0 {
          assert questions[1..][i - 1] == questions[i];
        }
      }
    }
  }

  lemma {:induction false} AnswersForMembers(own: HashMapRecord, ids: seq<Text>, a: AnswerSection)
    ensures a in AnswersFor(own, ids) <==>
              exists id, i :: id in own && id in ids && 0 <= i < |own[id]| && a == Answer(own[id][i])
  {
    hide ValidUtf8;
    hide Answer;
    if ids != [] {
      AnswersForMembers(own, ids[1..], a);
      assert forall id :: id in ids <==> id == ids[0] || id in ids[1..];
      if ids[0] in own {
        var first := Answers(own[ids[0]]);
        assert forall i :: 0 <= i < |own[ids[0]]| ==> first[i] == Answer(own[ids[0]][i]);
        assert a in AnswersFor(own, ids) <==> a in first || a in AnswersFor(own, ids[1..]);
      }
    }
  }

  /** A node speaks for what it has authority on: a message that brings no answers is replied to with
      exactly the node's own records of the networks some INET CNAME question names, and not at all if
      there are none; any other message is not replied to. */
  lemma RepliedExactlyWith(own: HashMapRecord, m: DnsMessage)
    ensures ReplyTo(own, m).Some? <==>
              m.nbAnswers == 0 && m.nbQuestions > 0 && exists a :: Authoritative(own, m.questions, a)
    ensures ReplyTo(own, m).Some? ==>
              var reply := ReplyTo(own, m).value;
              reply.questions == [] && forall a :: a in reply.answers <==> Authoritative(own, m.questions, a)
  {
    hide ValidUtf8;
    hide Answer;
    hide AnswersFor;
    hide Names;
    hide AsksFor;
    var answers := AnswersFor(own, Names(m.questions));
    forall a ensures a in answers <==> Authoritative(own, m.questions, a) {
      AnswersForMembers(own, Names(m.questions), a);
      forall id ensures id in Names(m.questions) <==> AsksFor(m.questions, id) {
        NamesAreAsked(m.questions, id);
      }
    }
    if answers != [] {
      assert answers[0] in answers;
    }
  }

  // ----- What a node asks -----

  function Question(r: Record): QuerySection {
    QuerySection(Len16(r.networkId), r.networkId, 5, 1)
  }

  function Questions(s: seq<Record>): seq<QuerySection> {
    seq(|s|, i requires 0 <= i < |s| => Question(s[i]))
  }

  /** One question for each own record, networks in the order of `ids`; none without any network. The
      count keeps its low 16 bits. */
  function QueryOf(own: HashMapRecord, ids: seq<Text>): Option<DnsMessage> {
    var records := All(own, ids);
    if own == map[] then None
    else Some(DnsMessage(0, 0, Low16(|records|), 0, 0, 0, Questions(records), []))
  }

  lemma AllStep(own: HashMapRecord, ids: seq<Text>, k: nat, done: seq<Record>)
    requires k < |ids|
    ensures done + All(own, ids[k..]) ==
            (done + if ids[k] in own then own[ids[k]] else []) + All(own, ids[k + 1..])
  {
    hide ValidUtf8;
    assert ids[k..][0] == ids[k] && ids[k..][1..] == ids[k + 1..];
  }

  method PushQuestions(done: seq<QuerySection>, records: seq<Record>) returns (questions: seq<QuerySection>)
    ensures questions == done + Questions(records)
  {
    hide ValidUtf8;
    hide Question;
    questions := done;
    for i := 0 to |records|
      invariant questions == done + Questions(records)[..i]
    {
      questions := questions + [Question(records[i])];
    }
    assert Questions(records)[..|records|] == Questions(records);
  }

  /** build_query_message; `ids` are the own networks in some order. */
  method BuildQueryMessage(own: HashMapRecord, ids: seq<Text>) returns (query: Option<DnsMessage>)
    requires Listing(ids, own)
    ensures query == QueryOf(own, ids)
  {
    hide ValidUtf8;
    hide Question;
    hide All;
    if own == map[] {
      return None;
    }
    var questions: seq<QuerySection> := [];
    ghost var done: seq<Record> := [];
    assert ids[0..] == ids && done + All(own, ids) == All(own, ids);
    for k := 0 to |ids|
      invariant questions == Questions(done) && done + All(own, ids[k..]) == All(own, ids)
    {
      AllStep(own, ids, k, done);
      ghost var was := done;
      questions := PushQuestions(questions, own[ids[k]]);
      done := done + own[ids[k]];
      assert Questions(done) == Questions(was) + Questions(own[ids[k]]);
    }
    assert done == All(own, ids) by { AllDone(own, ids, done); }
    query := Some(DnsMessage(0, 0, Low16(|questions|), 0, 0, 0, questions, []));
  }

  lemma AllDone(own: HashMapRecord, ids: seq<Text>, done: seq<Record>)
    ensures done + All(own, ids[|ids|..]) == done
  {
    hide ValidUtf8;
    assert ids[|ids|..] == [];
  }

  lemma {:induction false} AllMembers(own: HashMapRecord, ids: seq<Text>, r: Record)
    ensures r in All(own, ids) <==> exists id :: id in ids && id in own && r in own[id]
  {
    hide ValidUtf8;
    if ids != [] {
      AllMembers(own, ids[1..], r);
      assert forall id :: id in ids <==> id == ids[0] || id in ids[1..];
    }
  }

  /** A node asks for exactly the networks it has records of. */
  lemma AsksForOwn(own: HashMapRecord, ids: seq<Text>, id: Text)
    requires WellFiled(own) && Listing(ids, own)
    ensures AsksFor(Questions(All(own, ids)), id) <==> id in own && own[id] != []
  {
    hide ValidUtf8;
    var records := All(own, ids);
    if AsksFor(Questions(records), id) {
      var i :| 0 <= i < |Questions(records)| && Questions(records)[i].queryClass == 1 &&
               Questions(records)[i].queryType == 5 && Questions(records)[i].domainName == id;
      assert records[i] in records;
      AllMembers(own, ids, records[i]);
    }
    if id in own && own[id] != [] {
      var r := own[id][0];
      AllMembers(own, ids, r);
      assert r in own[id] && id in ids;
      var i :| 0 <= i < |records| && records[i] == r;
      assert Questions(records)[i] == Question(r);
    }
  }

  /** Both nodes have records of this network. */
  ghost predicate Shared(own: HashMapRecord, peer: HashMapRecord, id: Text) {
    id in own && own[id] != [] && id in peer && peer[id] != []
  }

  /** A query is answered by every node that shares a network: the reply brings exactly that node's
      records of the networks both have records of, and there is none if there is no such network. */
  lemma QueryIsAnswered(own: HashMapRecord, ids: seq<Text>, peer: HashMapRecord)
    requires WellFiled(own) && Listing(ids, own) && own != map[] && |All(own, ids)| < 0x1_0000
    ensures var query := QueryOf(own, ids).value;
            (ReplyTo(peer, query).Some? <==> exists id :: Shared(own, peer, id)) &&
            (ReplyTo(peer, query).Some? ==>
              forall a :: a in ReplyTo(peer, query).value.answers <==>
                exists id, i :: Shared(own, peer, id) && 0 <= i < |peer[id]| && a == Answer(peer[id][i]))
  {
    hide ValidUtf8;
    hide ReplyTo;
    hide AsksFor;
    hide Answer;
    var query := QueryOf(own, ids).value;
    RepliedExactlyWith(peer, query);
    forall id ensures AsksFor(query.questions, id) <==> id in own && own[id] != [] {
      AsksForOwn(own, ids, id);
    }
    if a :| Authoritative(peer, query.questions, a) {
      var id, i :| id in peer && AsksFor(query.questions, id) && 0 <= i < |peer[id]| && a == Answer(peer[id][i]);
      assert Shared(own, peer, id);
    }
    if id :| Shared(own, peer, id) {
      assert Authoritative(peer, query.questions, Answer(peer[id][0]));
      assert All(own, ids) != [] by {
        AllMembers(own, ids, own[id][0]);
        assert own[id][0] in own[id] && id in ids;
      }
    }
  }

  // ----- When a discover fails -----

  /** A packet is refused exactly when it begins with no message, or is a query this node has records for
      and the reply cannot be sent. */
  lemma RefusedExactlyWhen(own: HashMapRecord, p: Packet)
    ensures !Accepts(own, p) <==>
              (forall m :: Fits(m) ==> !LaidOut(Cut(p.bytes), m)) ||
              (!p.replySent && exists m, a :: Fits(m) && LaidOut(Cut(p.bytes), m) && m.nbAnswers == 0 &&
                                              m.nbQuestions > 0 && Authoritative(own, m.questions, a))
  {
    hide ValidUtf8;
    hide Decode;
    hide Fits;
    hide LaidOut;
    hide ReplyTo;
    hide Authoritative;
    var s := Cut(p.bytes);
    ReadExactlyWhen(s);
    if Decode(s).Got? {
      var m := Decode(s).value;
      RepliedExactlyWith(own, m);
      forall m' | Fits(m') && LaidOut(s, m') ensures m' == m {
        OneReading(s, m');
      }
    }
  }

  lemma OneReading(s: seq<byte>, m: DnsMessage)
    requires Fits(m) && LaidOut(s, m)
    ensures Decode(s).Got? && Decode(s).value == m
  {
    hide Decode;
    hide Fits;
    DecodedExactlyWhen(s, m, s[Size(m)..]);
  }

  /** A discover succeeds exactly when every packet is accepted and the query, if due, could be sent. */
  lemma {:induction false} DiscoverSucceedsExactlyWhen(own: HashMapRecord, cache: HashMapRecord, packets: seq<Packet>,
                                                       queryOk: bool)
    ensures Discovered(own, cache, packets, queryOk).ok <==>
              queryOk && forall i :: 0 <= i < |packets| ==> Accepts(own, packets[i])
    decreases |packets|
  {
    hide ValidUtf8;
    hide Accepts;
    hide Updated;
    hide News;
    if packets != [] && Accepts(own, packets[0]) {
      DiscoverSucceedsExactlyWhen(own, Updated(cache, News(own, packets[0])), packets[1..], queryOk);
      assert forall i :: 0 <= i < |packets| - 1 ==> packets[i + 1] == packets[1..][i];
      assert forall i :: 0 < i < |packets| ==> packets[i] == packets[1..][i - 1];
    }
  }

  // ----- What a record looks like on the wire -----

  /** One record in one packet, byte by byte: a header that counts one answer, then the network behind its
      length, type CNAME (5), class INET (1), the ttl, and the url behind its length, twice. */
  lemma RecordOnTheWire(r: Record)
    requires |r.networkId| < 0x1_0000 && |r.url| < 0x1_0000
    ensures var s, n, k := Encode(ResponseOf(Answers([r]))), |r.networkId|, |r.url|;
            |s| == 26 + n + k && U16At(s, 0, 0) && U16At(s, 2, 0) && U16At(s, 4, 0) && U16At(s, 6, 1) &&
            U16At(s, 8, 1) && U16At(s, 10, 0) && U16At(s, 12, n) && BytesAt(s, 14, r.networkId) &&
            U16At(s, 14 + n, 5) && U16At(s, 16 + n, 1) && U32At(s, 18 + n, r.ttl) && U16At(s, 22 + n, k) &&
            U16At(s, 24 + n, k) && BytesAt(s, 26 + n, r.url)
  {
    hide ValidUtf8;
    var m := ResponseOf(Answers([r]));
    assert m.answers[1..] == [] && m.answers[0] == Answer(r);
    hide Encode;
    EncodedExactlyWhen(Encode(m), m);
    assert AnswersSize(m.answers) == AnswerSize(m.answers[0]) + AnswersSize([]);
    assert AnswerAt(Encode(m), 12, Answer(r));
    hide U16At;
    hide U32At;
    hide BytesAt;
  }
}
