/** Records in DNS messages, and the record map updated in place. */
module MdnsMessages {
  import opened DnsCodec
  import opened MdnsRecords
  import opened Wrappers

  // ----- Messages to records -----

  /** Only CNAME answers of class INET are read. */
  predicate Usable(a: AnswerSection) {
    a.answerClass == 1 && a.answerType == 5
  }

  function AnswerRecord(a: AnswerSection): Record {
    Record(a.domainName, a.data.target, a.ttl)
  }

  function RecordsOf(answers: seq<AnswerSection>): seq<Record> {
    if answers == [] then []
    else (if Usable(answers[0]) then [AnswerRecord(answers[0])] else []) + RecordsOf(answers[1..])
  }

  /** Vec::dedup_by on urls: of neighbours with one url the first is left. */
  function DedupByUrl(s: seq<Record>): seq<Record>
    decreases |s|
  {
    if |s| <= 1 then s
    else if s[0].url == s[1].url then DedupByUrl([s[0]] + s[2..])
    else [s[0]] + DedupByUrl(s[1..])
  }

  function One(r: Record): HashMapRecord {
    map[r.networkId := [r]]
  }

  function AddAll(m: HashMapRecord, s: seq<Record>): HashMapRecord
    decreases |s|
  {
    if s == [] then m else AddAll(Updated(m, One(s[0])), s[1..])
  }

  function FromDns(m: DnsMessage): Option<HashMapRecord> {
    if m.answers == [] then None else Some(AddAll(map[], DedupByUrl(Sort(RecordsOf(m.answers)))))
  }

  // ----- Records to messages -----

  function Answer(r: Record): AnswerSection {
    NewAnswer(r.networkId, NewTarget(r.url), r.ttl)
  }

  function Answers(s: seq<Record>): seq<AnswerSection> {
    seq(|s|, i requires 0 <= i < |s| => Answer(s[i]))
  }

  function AnswersFor(m: HashMapRecord, ids: seq<Text>): seq<AnswerSection> {
    if ids == [] then [] else (if ids[0] in m then Answers(m[ids[0]]) else []) + AnswersFor(m, ids[1..])
  }

  /** The counts keep their low 16 bits. */
  function ResponseOf(answers: seq<AnswerSection>): DnsMessage {
    var n := Low16(|answers|);
    DnsMessage(0, 0, 0, n, n, 0, [], answers)
  }

  function ToDns(m: HashMapRecord, ids: seq<Text>): Option<DnsMessage> {
    var answers := AnswersFor(m, ids);
    if answers == [] then None else Some(ResponseOf(answers))
  }

  // ----- The map as an object -----

  lemma KeepEachStep(urls: seq<Text>, k: nat, s: seq<Record>, done: seq<Record>)
    requires k < |urls|
    ensures done + KeepEach(urls[k..], s) ==
            (done + Keep(ForUrl(s, urls[k]))) + KeepEach(urls[k + 1..], Without(s, urls[k]))
  {
    hide ValidUtf8;
    hide Keep;
    hide ForUrl;
    hide Without;
    assert urls[k..][0] == urls[k] && urls[k..][1..] == urls[k + 1..];
  }

  lemma KeepEachEnds(urls: seq<Text>, s: seq<Record>, done: seq<Record>)
    ensures urls[0..] == urls && [] + KeepEach(urls, s) == KeepEach(urls, s)
    ensures done + KeepEach(urls[|urls|..], s) == done
  {
    hide ValidUtf8;
    assert urls[|urls|..] == [];
  }

  /** Moves what is kept of the drained records to the end of `final`. */
  method PushKept(final: seq<Record>, drained: seq<Record>) returns (r: seq<Record>)
    ensures r == final + Keep(drained)
  {
    hide ValidUtf8;
    r := final;
    if |drained| == 1 {
      r := r + [drained[0]];
    } else {
      if |drained| > 0 && drained[0].ttl == 0 {
        r := r + [drained[0]];
      }
      if |drained| > 0 && drained[|drained| - 1].ttl == 255 {
        r := r + [drained[|drained| - 1]];
      }
    }
  }

  method DrainEach(urls: seq<Text>, sorted: seq<Record>) returns (final: seq<Record>)
    ensures final == KeepEach(urls, sorted)
  {
    hide ValidUtf8;
    hide Keep;
    hide KeepEach;
    hide ForUrl;
    hide Without;
    var left := sorted;
    final := [];
    KeepEachEnds(urls, sorted, []);
    for k := 0 to |urls|
      invariant final + KeepEach(urls[k..], left) == KeepEach(urls, sorted)
    {
      KeepEachStep(urls, k, left, final);
      var drained := ForUrl(left, urls[k]);
      left := Without(left, urls[k]);
      final := PushKept(final, drained);
    }
    KeepEachEnds(urls, left, final);
  }

  method MergeLists(cached: seq<Record>, other: seq<Record>) returns (final: seq<Record>)
    ensures final == Merge(cached, other)
  {
    hide ValidUtf8;
    hide Sort;
    hide Dedup;
    hide Urls;
    hide KeepEach;
    var all := cached;
    for i := 0 to |other|
      invariant all == cached + other[..i]
    {
      all := all + [other[i]];
    }
    assert other[..|other|] == other;
    all := Sort(all);
    final := DrainEach(Dedup(Urls(all)), all);
  }

  predicate PartlyUpdated(m: HashMapRecord, before: HashMapRecord, other: HashMapRecord, todo: set<Text>) {
    m.Keys == before.Keys + (other.Keys - todo) &&
    forall id :: id in m.Keys ==>
      m[id] == if id in other && id !in todo then Entry(before, other, id) else before[id]
  }

  class MapRecord {
    var records: HashMapRecord

    constructor ()
      ensures records == map[]
    {
      records := map[];
    }

    /** Networks of `other` are merged in whatever order they come. */
    method Update(other: HashMapRecord)
      modifies this
      ensures records == Updated(old(records), other)
    {
      hide ValidUtf8;
      hide Merge;
      hide Updated;
      ghost var before := records;
      var todo := other.Keys;
      while todo != {}
        invariant todo <= other.Keys
        invariant PartlyUpdated(records, before, other, todo)
        decreases |todo|
      {
        var id :| id in todo;
        if id in records {
          var final := MergeLists(records[id], other[id]);
          records := records[id := final];
        } else {
          records := records[id := other[id]];
        }
        todo := todo - {id};
      }
      WhollyUpdated(records, before, other);
    }
  }

  lemma WhollyUpdated(m: HashMapRecord, before: HashMapRecord, other: HashMapRecord)
    requires PartlyUpdated(m, before, other, {})
    ensures m == Updated(before, other)
  {
    hide ValidUtf8;
    hide Merge;
  }

  lemma RecordsStep(answers: seq<AnswerSection>, k: nat, done: seq<Record>)
    requires k < |answers|
    ensures done + RecordsOf(answers[k..]) ==
            (done + if Usable(answers[k]) then [AnswerRecord(answers[k])] else []) + RecordsOf(answers[k + 1..])
  {
    hide ValidUtf8;
    assert answers[k..][0] == answers[k] && answers[k..][1..] == answers[k + 1..];
  }

  method ReadRecords(answers: seq<AnswerSection>) returns (list: seq<Record>)
    ensures list == RecordsOf(answers)
  {
    hide ValidUtf8;
    hide RecordsOf;
    hide AnswerRecord;
    list := [];
    assert answers[0..] == answers && list + RecordsOf(answers) == RecordsOf(answers);
    for i := 0 to |answers|
      invariant list + RecordsOf(answers[i..]) == RecordsOf(answers)
    {
      RecordsStep(answers, i, list);
      if Usable(answers[i]) {
        list := list + [AnswerRecord(answers[i])];
      } else {
        assert list + [] == list;
      }
    }
    assert RecordsOf(answers[|answers|..]) == [] by { NoRecords(answers[|answers|..]); }
  }

  lemma NoRecords(answers: seq<AnswerSection>)
    requires answers == []
    ensures RecordsOf(answers) == []
  {
  }

  method FromDnsMessage(m: DnsMessage) returns (r: Option<HashMapRecord>)
    ensures r == FromDns(m)
  {
    hide ValidUtf8;
    hide Sort;
    hide DedupByUrl;
    hide RecordsOf;
    hide Updated;
    hide One;
    if m.answers == [] {
      r := None;
    } else {
      var list := ReadRecords(m.answers);
      list := DedupByUrl(Sort(list));
      var into := new MapRecord();
      assert list[0..] == list;
      for i := 0 to |list|
        invariant AddAll(into.records, list[i..]) == AddAll(map[], list)
        invariant fresh(into)
      {
        assert list[i..][0] == list[i] && list[i..][1..] == list[i + 1..];
        into.Update(One(list[i]));
      }
      assert list[|list|..] == [];
      r := Some(into.records);
    }
  }

  lemma AnswersForStep(m: HashMapRecord, ids: seq<Text>, k: nat, done: seq<AnswerSection>)
    requires k < |ids|
    ensures done + AnswersFor(m, ids[k..]) ==
            (done + if ids[k] in m then Answers(m[ids[k]]) else []) + AnswersFor(m, ids[k + 1..])
  {
    hide ValidUtf8;
    hide Answers;
    assert ids[k..][0] == ids[k] && ids[k..][1..] == ids[k + 1..];
  }

  method PushAnswers(done: seq<AnswerSection>, list: seq<Record>) returns (answers: seq<AnswerSection>)
    ensures answers == done + Answers(list)
  {
    hide ValidUtf8;
    hide Answer;
    answers := done;
    for i := 0 to |list|
      invariant answers == done + Answers(list)[..i]
    {
      answers := answers + [Answer(list[i])];
    }
    assert Answers(list)[..|list|] == Answers(list);
  }

  method ToDnsResponseMessage(m: HashMapRecord, ids: seq<Text>) returns (r: Option<DnsMessage>)
    ensures r == ToDns(m, ids)
  {
    hide ValidUtf8;
    hide Answers;
    hide ResponseOf;
    var answers: seq<AnswerSection> := [];
    assert ids[0..] == ids && answers + AnswersFor(m, ids) == AnswersFor(m, ids);
    for k := 0 to |ids|
      invariant answers + AnswersFor(m, ids[k..]) == AnswersFor(m, ids)
    {
      AnswersForStep(m, ids, k, answers);
      if ids[k] in m {
        answers := PushAnswers(answers, m[ids[k]]);
      } else {
        assert answers + [] == answers;
      }
    }
    assert ids[|ids|..] == [];
    r := if answers == [] then None else Some(ResponseOf(answers));
  }
}
