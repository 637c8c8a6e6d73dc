/** The bytes of a packet, position by position: every number is big endian, in the order of section
    4.1 of RFC 1035, and every name stands behind its length. Nothing here is said through the codec. */
module WireLayout {
  import opened DnsCodec

  ghost predicate U16At(s: seq<byte>, i: nat, v: u16) {
    i + 2 <= |s| && v == 256 * (s[i] as int) + s[i + 1] as int
  }

  ghost predicate U32At(s: seq<byte>, i: nat, v: u32) {
    i + 4 <= |s| &&
    v == 16777216 * (s[i] as int) + 65536 * (s[i + 1] as int) + 256 * (s[i + 2] as int) + s[i + 3] as int
  }

  ghost predicate BytesAt(s: seq<byte>, i: nat, bytes: seq<byte>) {
    i + |bytes| <= |s| && s[i..i + |bytes|] == bytes
  }

  ghost predicate HeaderAt(s: seq<byte>, m: DnsMessage) {
    U16At(s, 0, m.transId) && U16At(s, 2, m.parameters) && U16At(s, 4, m.nbQuestions) &&
    U16At(s, 6, m.nbAnswers) && U16At(s, 8, m.nbAuthority) && U16At(s, 10, m.nbAdditional)
  }

  ghost predicate QuestionAt(s: seq<byte>, i: nat, q: QuerySection) {
    var n := |q.domainName|;
    U16At(s, i, q.dnLen) && BytesAt(s, i + 2, q.domainName) && U16At(s, i + 2 + n, q.queryType) &&
    U16At(s, i + 4 + n, q.queryClass)
  }

  function QuestionSize(q: QuerySection): nat {
    6 + |q.domainName|
  }

  ghost predicate AnswerAt(s: seq<byte>, i: nat, a: AnswerSection) {
    var n := |a.domainName|;
    U16At(s, i, a.dnLen) && BytesAt(s, i + 2, a.domainName) && U16At(s, i + 2 + n, a.answerType) &&
    U16At(s, i + 4 + n, a.answerClass) && U32At(s, i + 6 + n, a.ttl) && U16At(s, i + 10 + n, a.dataLen) &&
    U16At(s, i + 12 + n, a.data.targetLen) && BytesAt(s, i + 14 + n, a.data.target)
  }

  function AnswerSize(a: AnswerSection): nat {
    14 + |a.domainName| + |a.data.target|
  }

  ghost predicate QuestionsAt(s: seq<byte>, i: nat, qs: seq<QuerySection>)
    decreases |qs|
  {
    qs == [] || (QuestionAt(s, i, qs[0]) && QuestionsAt(s, i + QuestionSize(qs[0]), qs[1..]))
  }

  function QuestionsSize(qs: seq<QuerySection>): nat {
    if qs == [] then 0 else QuestionSize(qs[0]) + QuestionsSize(qs[1..])
  }

  ghost predicate AnswersAt(s: seq<byte>, i: nat, xs: seq<AnswerSection>)
    decreases |xs|
  {
    xs == [] || (AnswerAt(s, i, xs[0]) && AnswersAt(s, i + AnswerSize(xs[0]), xs[1..]))
  }

  function AnswersSize(xs: seq<AnswerSection>): nat {
    if xs == [] then 0 else AnswerSize(xs[0]) + AnswersSize(xs[1..])
  }

  /** The packet begins with this message. */
  ghost predicate LaidOut(s: seq<byte>, m: DnsMessage) {
    HeaderAt(s, m) && 12 + QuestionsSize(m.questions) + AnswersSize(m.answers) <= |s| &&
    QuestionsAt(s, 12, m.questions) && AnswersAt(s, 12 + QuestionsSize(m.questions), m.answers)
  }

  function Size(m: DnsMessage): nat {
    12 + QuestionsSize(m.questions) + AnswersSize(m.answers)
  }

  // ----- What the codec writes -----

  lemma ConcatAt(s: seq<byte>, i: nat, a: seq<byte>, b: seq<byte>)
    ensures BytesAt(s, i, a + b) <==> BytesAt(s, i, a) && BytesAt(s, i + |a|, b)
  {
    if BytesAt(s, i, a + b) {
      assert s[i..i + |a|] == s[i..i + |a + b|][..|a|];
      assert s[i + |a|..i + |a| + |b|] == s[i..i + |a + b|][|a|..];
    }
    if BytesAt(s, i, a) && BytesAt(s, i + |a|, b) {
      assert s[i..i + |a + b|] == s[i..i + |a|] + s[i + |a|..i + |a| + |b|];
    }
  }

  lemma PutU16At(s: seq<byte>, i: nat, v: u16)
    ensures |PutU16(v)| == 2
    ensures BytesAt(s, i, PutU16(v)) <==> U16At(s, i, v)
  {
    hide PutU16;
    var hi, lo := U16Parts(v);
    if i + 2 <= |s| {
      assert s[i..i + 2] == [s[i], s[i + 1]];
    }
  }

  lemma PutU32At(s: seq<byte>, i: nat, v: u32)
    ensures |PutU32(v)| == 4
    ensures BytesAt(s, i, PutU32(v)) <==> U32At(s, i, v)
  {
    hide PutU16;
    hide PutU32;
    hide BytesAt;
    var hi, lo := U32Parts(v);
    ConcatAt(s, i, PutU16(hi), PutU16(lo));
    PutU16At(s, i, hi);
    PutU16At(s, i + 2, lo);
  }

  lemma PutQuestionAt(s: seq<byte>, i: nat, q: QuerySection)
    ensures |PutQuestion(q)| == QuestionSize(q)
    ensures BytesAt(s, i, PutQuestion(q)) <==> QuestionAt(s, i, q)
  {
    hide ValidUtf8;
    hide PutU16;
    hide U16At;
    hide BytesAt;
    var n := |q.domainName|;
    PutU16At(s, i, q.dnLen);
    PutU16At(s, i + 2 + n, q.queryType);
    PutU16At(s, i + 4 + n, q.queryClass);
    var s2 := PutU16(q.queryType) + PutU16(q.queryClass);
    ConcatAt(s, i, PutU16(q.dnLen), q.domainName + s2);
    ConcatAt(s, i + 2, q.domainName, s2);
    ConcatAt(s, i + 2 + n, PutU16(q.queryType), PutU16(q.queryClass));
  }

  lemma PutTargetAt(s: seq<byte>, i: nat, x: Target)
    ensures |PutTarget(x)| == 2 + |x.target|
    ensures BytesAt(s, i, PutTarget(x)) <==> U16At(s, i, x.targetLen) && BytesAt(s, i + 2, x.target)
  {
    hide ValidUtf8;
    hide PutU16;
    hide U16At;
    hide BytesAt;
    PutU16At(s, i, x.targetLen);
    ConcatAt(s, i, PutU16(x.targetLen), x.target);
  }

  lemma PutAnswerAt(s: seq<byte>, i: nat, a: AnswerSection)
    ensures |PutAnswer(a)| == AnswerSize(a)
    ensures BytesAt(s, i, PutAnswer(a)) <==> AnswerAt(s, i, a)
  {
    hide ValidUtf8;
    hide PutU16;
    hide PutU32;
    hide PutTarget;
    hide U16At;
    hide U32At;
    hide BytesAt;
    var n := |a.domainName|;
    var s5 := PutU16(a.dataLen) + PutTarget(a.data);
    var s4 := PutU32(a.ttl) + s5;
    var s3 := PutU16(a.answerClass) + s4;
    var s2 := PutU16(a.answerType) + s3;
    PutU16At(s, i, a.dnLen);
    PutU16At(s, i + 2 + n, a.answerType);
    PutU16At(s, i + 4 + n, a.answerClass);
    PutU32At(s, i + 6 + n, a.ttl);
    PutU16At(s, i + 10 + n, a.dataLen);
    PutTargetAt(s, i + 12 + n, a.data);
    ConcatAt(s, i, PutU16(a.dnLen), a.domainName + s2);
    ConcatAt(s, i + 2, a.domainName, s2);
    ConcatAt(s, i + 2 + n, PutU16(a.answerType), s3);
    ConcatAt(s, i + 4 + n, PutU16(a.answerClass), s4);
    ConcatAt(s, i + 6 + n, PutU32(a.ttl), s5);
    ConcatAt(s, i + 10 + n, PutU16(a.dataLen), PutTarget(a.data));
  }

  lemma PutHeaderAt(s: seq<byte>, m: DnsMessage)
    ensures |PutHeader(m)| == 12
    ensures BytesAt(s, 0, PutHeader(m)) <==> HeaderAt(s, m)
  {
    hide ValidUtf8;
    hide PutU16;
    hide U16At;
    hide BytesAt;
    var s5 := PutU16(m.nbAuthority) + PutU16(m.nbAdditional);
    var s4 := PutU16(m.nbAnswers) + s5;
    var s3 := PutU16(m.nbQuestions) + s4;
    var s2 := PutU16(m.parameters) + s3;
    PutU16At(s, 0, m.transId);
    PutU16At(s, 2, m.parameters);
    PutU16At(s, 4, m.nbQuestions);
    PutU16At(s, 6, m.nbAnswers);
    PutU16At(s, 8, m.nbAuthority);
    PutU16At(s, 10, m.nbAdditional);
    ConcatAt(s, 0, PutU16(m.transId), s2);
    ConcatAt(s, 2, PutU16(m.parameters), s3);
    ConcatAt(s, 4, PutU16(m.nbQuestions), s4);
    ConcatAt(s, 6, PutU16(m.nbAnswers), s5);
    ConcatAt(s, 8, PutU16(m.nbAuthority), PutU16(m.nbAdditional));
  }

  lemma {:induction false} PutQuestionsAt(s: seq<byte>, i: nat, qs: seq<QuerySection>)
    requires i + QuestionsSize(qs) <= |s|
    ensures |PutAll(PutQuestion, qs)| == QuestionsSize(qs)
    ensures BytesAt(s, i, PutAll(PutQuestion, qs)) <==> QuestionsAt(s, i, qs)
    decreases |qs|
  {
    hide ValidUtf8;
    hide PutQuestion;
    hide QuestionAt;
    if qs == [] {
      assert s[i..i + 0] == [];
    } else {
      PutQuestionAt(s, i, qs[0]);
      PutQuestionsAt(s, i + QuestionSize(qs[0]), qs[1..]);
      ConcatAt(s, i, PutQuestion(qs[0]), PutAll(PutQuestion, qs[1..]));
    }
  }

  lemma {:induction false} PutAnswersAt(s: seq<byte>, i: nat, xs: seq<AnswerSection>)
    requires i + AnswersSize(xs) <= |s|
    ensures |PutAll(PutAnswer, xs)| == AnswersSize(xs)
    ensures BytesAt(s, i, PutAll(PutAnswer, xs)) <==> AnswersAt(s, i, xs)
    decreases |xs|
  {
    hide ValidUtf8;
    hide PutAnswer;
    hide AnswerAt;
    if xs == [] {
      assert s[i..i + 0] == [];
    } else {
      PutAnswerAt(s, i, xs[0]);
      PutAnswersAt(s, i + AnswerSize(xs[0]), xs[1..]);
      ConcatAt(s, i, PutAnswer(xs[0]), PutAll(PutAnswer, xs[1..]));
    }
  }

  lemma {:induction false} EncodeSize(m: DnsMessage)
    ensures |Encode(m)| == Size(m)
  {
    hide ValidUtf8;
    hide PutHeader;
    hide PutQuestion;
    hide PutAnswer;
    hide QuestionsAt;
    hide AnswersAt;
    hide HeaderAt;
    var s := seq<byte>(Size(m), _ => 0);
    PutHeaderAt(s, m);
    PutQuestionsAt(s, 12, m.questions);
    PutAnswersAt(s, 12 + QuestionsSize(m.questions), m.answers);
  }

  lemma EncodeAt(s: seq<byte>, m: DnsMessage)
    ensures BytesAt(s, 0, Encode(m)) <==> LaidOut(s, m)
  {
    hide ValidUtf8;
    hide PutHeader;
    hide PutAll;
    hide PutQuestion;
    hide PutAnswer;
    hide QuestionsAt;
    hide AnswersAt;
    hide HeaderAt;
    EncodeSize(m);
    if Size(m) <= |s| {
      var qs, xs := PutAll(PutQuestion, m.questions), PutAll(PutAnswer, m.answers);
      PutHeaderAt(s, m);
      PutQuestionsAt(s, 12, m.questions);
      PutAnswersAt(s, 12 + QuestionsSize(m.questions), m.answers);
      hide BytesAt;
      ConcatAt(s, 0, PutHeader(m), qs + xs);
      ConcatAt(s, 12, qs, xs);
    }
  }

  /** What is written: the bytes of a message are exactly the packet laid out as this message, with
      nothing behind it. */
  lemma EncodedExactlyWhen(s: seq<byte>, m: DnsMessage)
    ensures s == Encode(m) <==> LaidOut(s, m) && |s| == Size(m)
  {
    hide Encode;
    hide LaidOut;
    EncodeAt(s, m);
    EncodeSize(m);
    assert s[0..|s|] == s;
  }

  /** What is read: a packet decodes to a message exactly when it begins with that message, whose
      declared counts and lengths are the real ones; what is left is what stands behind it. */
  lemma DecodedExactlyWhen(s: seq<byte>, m: DnsMessage, rest: seq<byte>)
    ensures Decode(s) == Got(m, rest) <==> Fits(m) && LaidOut(s, m) && rest == s[Size(m)..]
  {
    hide ValidUtf8;
    hide Decode;
    hide Encode;
    hide Fits;
    hide LaidOut;
    EncodeAt(s, m);
    EncodeSize(m);
    if Decode(s) == Got(m, rest) {
      EncodeAfterDecode(s);
      assert s[0..Size(m)] == Encode(m);
    }
    if Fits(m) && LaidOut(s, m) {
      assert s == Encode(m) + s[Size(m)..];
      MessageBack(m, s[Size(m)..]);
    }
  }

  /** A packet is refused exactly when it begins with no message at all. */
  lemma ReadExactlyWhen(s: seq<byte>)
    ensures Decode(s).Got? ==> Fits(Decode(s).value) && LaidOut(s, Decode(s).value)
    ensures Decode(s).Failed? ==> forall m :: Fits(m) ==> !LaidOut(s, m)
  {
    hide Decode;
    hide Fits;
    if Decode(s).Got? {
      DecodedExactlyWhen(s, Decode(s).value, Decode(s).rest);
    } else {
      forall m | LaidOut(s, m) ensures !Fits(m) {
        DecodedExactlyWhen(s, m, s[Size(m)..]);
      }
    }
  }
}
