/** The mDNS packet format: a header of six 16-bit numbers as in section 4.1.1 of RFC 1035, then
    questions and answers whose names are byte strings prefixed with a 16-bit length. */
module DnsCodec {
  type byte = x: int | 0 <= x < 0x100
  type u16 = x: int | 0 <= x < 0x1_0000
  type u32 = x: int | 0 <= x < 0x1_0000_0000

  // ----- Text -----

  predicate Continues(b: byte) {
    0x80 <= b < 0xC0
  }

  /** The length of the encoded character at `i`, or 0 if there is none; section 4 of RFC 3629. */
  function CharLen(s: seq<byte>, i: nat): (n: nat)
    requires i < |s|
    ensures i + n <= |s|
  {
    var b := s[i];
    var left := |s| - i;
    if b < 0x80 then 1
    else if left < 2 || !Continues(s[i + 1]) then 0
    else if 0xC2 <= b <= 0xDF then 2
    else if left < 3 || !Continues(s[i + 2]) || (b == 0xE0 && s[i + 1] < 0xA0) || (b == 0xED && s[i + 1] >= 0xA0) then 0
    else if 0xE0 <= b <= 0xEF then 3
    else if left < 4 || !Continues(s[i + 3]) || (b == 0xF0 && s[i + 1] < 0x90) || (b == 0xF4 && s[i + 1] >= 0x90) then 0
    else if 0xF0 <= b <= 0xF4 then 4
    else 0
  }

  predicate CharsFrom(s: seq<byte>, i: nat)
    requires i <= |s|
    decreases |s| - i
  {
    i == |s| || (CharLen(s, i) > 0 && CharsFrom(s, i + CharLen(s, i)))
  }

  /** Well-formed UTF-8. */
  predicate ValidUtf8(s: seq<byte>) {
    CharsFrom(s, 0)
  }

  /** A string is its UTF-8 bytes. */
  type Text = s: seq<byte> | ValidUtf8(s)

  const EMPTY: Text := []

  // ----- Messages -----

  datatype QuerySection = QuerySection(dnLen: u16, domainName: Text, queryType: u16, queryClass: u16)

  datatype Target = Target(targetLen: u16, target: Text)

  datatype AnswerSection = AnswerSection(
    dnLen: u16, domainName: Text, answerType: u16, answerClass: u16, ttl: u32, dataLen: u16, data: Target)

  datatype DnsMessage = DnsMessage(
    transId: u16, parameters: u16, nbQuestions: u16, nbAnswers: u16, nbAuthority: u16, nbAdditional: u16,
    questions: seq<QuerySection>, answers: seq<AnswerSection>)

  /** `n as u16` keeps the low 16 bits. */
  function Low16(n: nat): u16 {
    if n < 0x1_0000 then n else Low16(n - 0x1_0000)
  }

  /** What is cut off is a multiple of 0x1_0000. */
  lemma {:induction false} Low16Wraps(n: nat) returns (k: nat)
    ensures n == 0x1_0000 * k + Low16(n)
  {
    hide ValidUtf8;
    if n < 0x1_0000 {
      k := 0;
    } else {
      k := Low16Wraps(n - 0x1_0000);
      k := k + 1;
    }
  }

  function Len16(text: Text): u16 {
    Low16(|text|)
  }

  function NewTarget(url: Text): Target {
    Target(Len16(url), url)
  }

  function NewAnswer(name: Text, target: Target, ttl: u32): AnswerSection {
    AnswerSection(Len16(name), name, 5, 1, ttl, Len16(target.target), target)
  }

  // ----- Bytes on the wire -----

  /** A number of two bytes, the high one first. */
  function Join(hi: byte, lo: byte): u16 {
    0x100 * hi + lo
  }

  /** A number of two 16-bit halves, the high one first. */
  function Words(hi: u16, lo: u16): u32 {
    0x1_0000 * hi + lo
  }

  /** Each number has one pair of bytes. */
  function PutU16(v: u16): seq<byte> {
    assert v == Join(v / 0x100, v % 0x100);
    var hi: byte, lo: byte :| v == Join(hi, lo);
    [hi, lo]
  }

  function PutU32(v: u32): seq<byte> {
    assert v == Words(v / 0x1_0000, v % 0x1_0000);
    var hi: u16, lo: u16 :| v == Words(hi, lo);
    PutU16(hi) + PutU16(lo)
  }

  function PutQuestion(q: QuerySection): seq<byte> {
    PutU16(q.dnLen) + (q.domainName + (PutU16(q.queryType) + PutU16(q.queryClass)))
  }

  function PutTarget(t: Target): seq<byte> {
    PutU16(t.targetLen) + t.target
  }

  function PutAnswer(a: AnswerSection): seq<byte> {
    PutU16(a.dnLen) + (a.domainName + (PutU16(a.answerType) + (PutU16(a.answerClass) + (PutU32(a.ttl) +
    (PutU16(a.dataLen) + PutTarget(a.data))))))
  }

  /** Sections one after another. */
  function PutAll<T>(put: T -> seq<byte>, xs: seq<T>): seq<byte> {
    if xs == [] then [] else put(xs[0]) + PutAll(put, xs[1..])
  }

  function PutHeader(m: DnsMessage): seq<byte> {
    PutU16(m.transId) + (PutU16(m.parameters) + (PutU16(m.nbQuestions) + (PutU16(m.nbAnswers) +
    (PutU16(m.nbAuthority) + PutU16(m.nbAdditional)))))
  }

  function Encode(m: DnsMessage): seq<byte> {
    PutHeader(m) + (PutAll(PutQuestion, m.questions) + PutAll(PutAnswer, m.answers))
  }

  // ----- Reading -----

  datatype Error = UnexpectedEof | BadUtf8

  /** A value and what is left to read. */
  datatype Read<+T> = Got(value: T, rest: seq<byte>) | Failed(error: Error)

  function GetU16(s: seq<byte>): Read<u16> {
    if |s| < 2 then Failed(UnexpectedEof) else Got(Join(s[0], s[1]), s[2..])
  }

  function GetU32(s: seq<byte>): Read<u32> {
    if |s| < 4 then Failed(UnexpectedEof)
    else Got(Words(Join(s[0], s[1]), Join(s[2], s[3])), s[4..])
  }

  function GetBytes(s: seq<byte>, n: nat): Read<seq<byte>> {
    if |s| < n then Failed(UnexpectedEof) else Got(s[..n], s[n..])
  }

  /** The name is checked before the type and class are read. */
  function GetQuestion(s: seq<byte>): Read<QuerySection> {
    match GetU16(s)
    case Failed(e) => Failed(e)
    case Got(len, s1) =>
    match GetBytes(s1, len)
    case Failed(e) => Failed(e)
    case Got(name, s2) =>
    if !ValidUtf8(name) then Failed(BadUtf8) else
    match GetU16(s2)
    case Failed(e) => Failed(e)
    case Got(kind, s3) =>
    match GetU16(s3)
    case Failed(e) => Failed(e)
    case Got(class_, s4) => Got(QuerySection(len, name, kind, class_), s4)
  }

  function GetTarget(s: seq<byte>): Read<Target> {
    match GetU16(s)
    case Failed(e) => Failed(e)
    case Got(len, s1) =>
    match GetBytes(s1, len)
    case Failed(e) => Failed(e)
    case Got(target, s2) => if ValidUtf8(target) then Got(Target(len, target), s2) else Failed(BadUtf8)
  }

  /** The fixed fields between the name and the target. */
  datatype Fixed = Fixed(kind: u16, class_: u16, ttl: u32, dataLen: u16)

  function GetFixed(s: seq<byte>): Read<Fixed> {
    match GetU16(s)
    case Failed(e) => Failed(e)
    case Got(kind, s1) =>
    match GetU16(s1)
    case Failed(e) => Failed(e)
    case Got(class_, s2) =>
    match GetU32(s2)
    case Failed(e) => Failed(e)
    case Got(ttl, s3) =>
    match GetU16(s3)
    case Failed(e) => Failed(e)
    case Got(dataLen, s4) => Got(Fixed(kind, class_, ttl, dataLen), s4)
  }

  /** Here the name is checked last. */
  function GetAnswer(s: seq<byte>): Read<AnswerSection> {
    match GetU16(s)
    case Failed(e) => Failed(e)
    case Got(len, s1) =>
    match GetBytes(s1, len)
    case Failed(e) => Failed(e)
    case Got(name, s2) =>
    match GetFixed(s2)
    case Failed(e) => Failed(e)
    case Got(f, s3) =>
    match GetTarget(s3)
    case Failed(e) => Failed(e)
    case Got(target, s4) =>
      if ValidUtf8(name) then Got(AnswerSection(len, name, f.kind, f.class_, f.ttl, f.dataLen, target), s4)
      else Failed(BadUtf8)
  }

  function GetAll<T>(get: seq<byte> -> Read<T>, s: seq<byte>, n: nat): Read<seq<T>>
    decreases n
  {
    if n == 0 then Got([], s)
    else
      match get(s)
      case Failed(e) => Failed(e)
      case Got(x, s1) =>
      match GetAll(get, s1, n - 1)
      case Failed(e) => Failed(e)
      case Got(xs, s2) => Got([x] + xs, s2)
  }

  /** The header as a message without sections. */
  function GetHeader(s: seq<byte>): Read<DnsMessage> {
    match GetU16(s)
    case Failed(e) => Failed(e)
    case Got(transId, s1) =>
    match GetU16(s1)
    case Failed(e) => Failed(e)
    case Got(parameters, s2) =>
    match GetU16(s2)
    case Failed(e) => Failed(e)
    case Got(nbQuestions, s3) =>
    match GetU16(s3)
    case Failed(e) => Failed(e)
    case Got(nbAnswers, s4) =>
    match GetU16(s4)
    case Failed(e) => Failed(e)
    case Got(nbAuthority, s5) =>
    match GetU16(s5)
    case Failed(e) => Failed(e)
    case Got(nbAdditional, s6) =>
      Got(DnsMessage(transId, parameters, nbQuestions, nbAnswers, nbAuthority, nbAdditional, [], []), s6)
  }

  /** Decoding also returns the bytes after the message, which from_raw ignores. */
  function Decode(s: seq<byte>): Read<DnsMessage> {
    match GetHeader(s)
    case Failed(e) => Failed(e)
    case Got(m, s1) =>
    match GetAll(GetQuestion, s1, m.nbQuestions)
    case Failed(e) => Failed(e)
    case Got(qs, s2) =>
    match GetAll(GetAnswer, s2, m.nbAnswers)
    case Failed(e) => Failed(e)
    case Got(xs, s3) => Got(m.(questions := qs, answers := xs), s3)
  }

  // ----- Well-formed messages -----

  predicate QuestionFits(q: QuerySection) {
    q.dnLen == |q.domainName|
  }

  predicate AnswerFits(a: AnswerSection) {
    a.dnLen == |a.domainName| && a.data.targetLen == |a.data.target|
  }

  /** The declared counts and lengths are the real ones. */
  predicate Fits(m: DnsMessage) {
    m.nbQuestions == |m.questions| && m.nbAnswers == |m.answers| &&
    (forall i :: 0 <= i < |m.questions| ==> QuestionFits(m.questions[i])) &&
    (forall i :: 0 <= i < |m.answers| ==> AnswerFits(m.answers[i]))
  }

  // ----- Reading back what was written -----

  lemma U16Parts(v: u16) returns (hi: byte, lo: byte)
    ensures PutU16(v) == [hi, lo] && Join(hi, lo) == v
  {
    hide ValidUtf8;
    hi, lo := PutU16(v)[0], PutU16(v)[1];
  }

  lemma U32Parts(v: u32) returns (hi: u16, lo: u16)
    ensures PutU32(v) == PutU16(hi) + PutU16(lo) && Words(hi, lo) == v
  {
    hide ValidUtf8;
    hide PutU16;
    hi, lo := v / 0x1_0000, v % 0x1_0000;
  }

  lemma U16Back(v: u16, t: seq<byte>)
    ensures GetU16(PutU16(v) + t) == Got(v, t)
  {
    hide ValidUtf8;
    hide PutU16;
    var hi, lo := U16Parts(v);
    assert ([hi, lo] + t)[2..] == t;
  }

  lemma U32Back(v: u32, t: seq<byte>)
    ensures GetU32(PutU32(v) + t) == Got(v, t)
  {
    hide ValidUtf8;
    hide Join;
    hide Words;
    hide PutU16;
    hide PutU32;
    var hi, lo := U32Parts(v);
    var a, b := U16Parts(hi);
    var c, d := U16Parts(lo);
    var s := PutU32(v) + t;
    assert s == [a, b, c, d] + t;
    assert s[4..] == t;
  }

  lemma BytesBack(b: seq<byte>, t: seq<byte>)
    ensures GetBytes(b + t, |b|) == Got(b, t)
  {
    hide ValidUtf8;
    assert (b + t)[..|b|] == b && (b + t)[|b|..] == t;
  }

  lemma Assoc(a: seq<byte>, b: seq<byte>, c: seq<byte>)
    ensures (a + b) + c == a + (b + c)
  {
    hide ValidUtf8;
  }

  lemma QuestionBack(q: QuerySection, t: seq<byte>)
    requires QuestionFits(q)
    ensures GetQuestion(PutQuestion(q) + t) == Got(q, t)
  {
    hide ValidUtf8;
    hide PutU16;
    hide GetU16;
    hide GetBytes;
    var s3 := PutU16(q.queryClass) + t;
    var s2 := PutU16(q.queryType) + s3;
    var s1 := q.domainName + s2;
    assert PutQuestion(q) + t == PutU16(q.dnLen) + s1;
    U16Back(q.dnLen, s1);
    BytesBack(q.domainName, s2);
    U16Back(q.queryType, s3);
    U16Back(q.queryClass, t);
  }

  lemma TargetBack(x: Target, t: seq<byte>)
    requires x.targetLen == |x.target|
    ensures GetTarget(PutTarget(x) + t) == Got(x, t)
  {
    hide ValidUtf8;
    hide PutU16;
    hide GetU16;
    hide GetBytes;
    assert PutTarget(x) + t == PutU16(x.targetLen) + (x.target + t);
    U16Back(x.targetLen, x.target + t);
    BytesBack(x.target, t);
  }

  lemma FixedBack(f: Fixed, t: seq<byte>)
    ensures GetFixed(PutU16(f.kind) + (PutU16(f.class_) + (PutU32(f.ttl) + (PutU16(f.dataLen) + t)))) == Got(f, t)
  {
    hide ValidUtf8;
    hide PutU16;
    hide GetU16;
    hide PutU32;
    hide GetU32;
    var s3 := PutU16(f.dataLen) + t;
    var s2 := PutU32(f.ttl) + s3;
    U16Back(f.kind, PutU16(f.class_) + s2);
    U16Back(f.class_, s2);
    U32Back(f.ttl, s3);
    U16Back(f.dataLen, t);
  }

  lemma AnswerBack(a: AnswerSection, t: seq<byte>)
    requires AnswerFits(a)
    ensures GetAnswer(PutAnswer(a) + t) == Got(a, t)
  {
    hide ValidUtf8;
    hide GetTarget;
    hide GetFixed;
    hide PutTarget;
    hide PutU16;
    hide PutU32;
    hide GetU16;
    hide GetBytes;
    var s3 := PutTarget(a.data) + t;
    var s2 := PutU16(a.answerType) + (PutU16(a.answerClass) + (PutU32(a.ttl) + (PutU16(a.dataLen) + s3)));
    var s1 := a.domainName + s2;
    assert PutAnswer(a) + t == PutU16(a.dnLen) + s1;
    U16Back(a.dnLen, s1);
    BytesBack(a.domainName, s2);
    FixedBack(Fixed(a.answerType, a.answerClass, a.ttl, a.dataLen), s3);
    TargetBack(a.data, t);
  }

  /** Reading undoes writing for a list if it does so for each of its items. */
  lemma {:induction false} AllBack<T>(put: T -> seq<byte>, get: seq<byte> -> Read<T>, xs: seq<T>, t: seq<byte>)
    requires forall i, t' :: 0 <= i < |xs| ==> get(put(xs[i]) + t') == Got(xs[i], t')
    ensures GetAll(get, PutAll(put, xs) + t, |xs|) == Got(xs, t)
    decreases |xs|
  {
    hide ValidUtf8;
    if xs == [] {
      assert [] + t == t;
    } else {
      var rest := PutAll(put, xs[1..]) + t;
      Assoc(put(xs[0]), PutAll(put, xs[1..]), t);
      assert get(put(xs[0]) + rest) == Got(xs[0], rest);
      AllBack(put, get, xs[1..], t);
      assert [xs[0]] + xs[1..] == xs;
    }
  }

  lemma HeaderBack(m: DnsMessage, t: seq<byte>)
    ensures GetHeader(PutHeader(m) + t) == Got(m.(questions := [], answers := []), t)
  {
    hide ValidUtf8;
    hide PutU16;
    hide GetU16;
    var s5 := PutU16(m.nbAdditional) + t;
    var s4 := PutU16(m.nbAuthority) + s5;
    var s3 := PutU16(m.nbAnswers) + s4;
    var s2 := PutU16(m.nbQuestions) + s3;
    var s1 := PutU16(m.parameters) + s2;
    assert PutHeader(m) + t == PutU16(m.transId) + s1;
    U16Back(m.transId, s1);
    U16Back(m.parameters, s2);
    U16Back(m.nbQuestions, s3);
    U16Back(m.nbAnswers, s4);
    U16Back(m.nbAuthority, s5);
    U16Back(m.nbAdditional, t);
  }

  lemma MessageBack(m: DnsMessage, t: seq<byte>)
    requires Fits(m)
    ensures Decode(Encode(m) + t) == Got(m, t)
  {
    hide ValidUtf8;
    hide GetHeader;
    hide PutHeader;
    hide GetQuestion;
    hide PutQuestion;
    hide GetAnswer;
    hide PutAnswer;
    hide GetAll;
    hide PutAll;
    var s2 := PutAll(PutAnswer, m.answers) + t;
    var s1 := PutAll(PutQuestion, m.questions) + s2;
    assert Encode(m) + t == PutHeader(m) + s1;
    HeaderBack(m, s1);
    forall i, t' | 0 <= i < |m.questions|
      ensures GetQuestion(PutQuestion(m.questions[i]) + t') == Got(m.questions[i], t')
    {
      QuestionBack(m.questions[i], t');
    }
    AllBack(PutQuestion, GetQuestion, m.questions, s2);
    forall i, t' | 0 <= i < |m.answers| ensures GetAnswer(PutAnswer(m.answers[i]) + t') == Got(m.answers[i], t') {
      AnswerBack(m.answers[i], t');
    }
    AllBack(PutAnswer, GetAnswer, m.answers, t);
  }

  // ----- Writing back what was read -----

  lemma U16Forth(s: seq<byte>)
    requires GetU16(s).Got?
    ensures PutU16(GetU16(s).value) + GetU16(s).rest == s
  {
    hide ValidUtf8;
  }

  lemma U32Forth(s: seq<byte>)
    requires GetU32(s).Got?
    ensures PutU32(GetU32(s).value) + GetU32(s).rest == s
  {
    hide ValidUtf8;
    hide PutU16;
    hide PutU32;
    hide Join;
    hide Words;
    HalvesForth(s[0], s[1]);
    HalvesForth(s[2], s[3]);
    WordsForth(Join(s[0], s[1]), Join(s[2], s[3]));
    assert s == [s[0], s[1]] + [s[2], s[3]] + s[4..];
  }

  lemma HalvesForth(hi: byte, lo: byte)
    ensures PutU16(Join(hi, lo)) == [hi, lo]
  {
    hide ValidUtf8;
    hide PutU16;
    var hi', lo' := U16Parts(Join(hi, lo));
  }

  lemma WordsForth(hi: u16, lo: u16)
    ensures PutU32(Words(hi, lo)) == PutU16(hi) + PutU16(lo)
  {
    hide ValidUtf8;
    hide PutU16;
    hide PutU32;
    var hi', lo' := U32Parts(Words(hi, lo));
  }

  lemma QuestionForth(s: seq<byte>)
    requires GetQuestion(s).Got?
    ensures PutQuestion(GetQuestion(s).value) + GetQuestion(s).rest == s && QuestionFits(GetQuestion(s).value)
  {
    hide ValidUtf8;
    hide PutU16;
    var q, t := GetQuestion(s).value, GetQuestion(s).rest;
    var s1 := GetU16(s).rest;
    var s2 := GetBytes(s1, q.dnLen).rest;
    var s3 := GetU16(s2).rest;
    U16Forth(s);
    U16Forth(s2);
    U16Forth(s3);
    assert q.domainName + s2 == s1;
    calc {
      PutQuestion(q) + t;
      PutU16(q.dnLen) + (q.domainName + (PutU16(q.queryType) + (PutU16(q.queryClass) + t)));
      s;
    }
  }

  lemma TargetForth(s: seq<byte>)
    requires GetTarget(s).Got?
    ensures PutTarget(GetTarget(s).value) + GetTarget(s).rest == s
    ensures GetTarget(s).value.targetLen == |GetTarget(s).value.target|
  {
    hide ValidUtf8;
    hide PutU16;
    var x, s1 := GetTarget(s).value, GetU16(s).rest;
    U16Forth(s);
    assert x.target + GetTarget(s).rest == s1;
  }

  lemma FixedForth(s: seq<byte>)
    requires GetFixed(s).Got?
    ensures var f, t := GetFixed(s).value, GetFixed(s).rest;
            PutU16(f.kind) + (PutU16(f.class_) + (PutU32(f.ttl) + (PutU16(f.dataLen) + t))) == s
  {
    hide ValidUtf8;
    hide PutU16;
    hide PutU32;
    hide GetU16;
    hide GetU32;
    U16Forth(s);
    var s1 := GetU16(s).rest;
    U16Forth(s1);
    var s2 := GetU16(s1).rest;
    U32Forth(s2);
    U16Forth(GetU32(s2).rest);
  }

  lemma AnswerForth(s: seq<byte>)
    requires GetAnswer(s).Got?
    ensures PutAnswer(GetAnswer(s).value) + GetAnswer(s).rest == s && AnswerFits(GetAnswer(s).value)
  {
    hide ValidUtf8;
    hide PutU16;
    hide PutU32;
    hide PutTarget;
    hide GetU16;
    hide GetFixed;
    hide GetTarget;
    var a, t := GetAnswer(s).value, GetAnswer(s).rest;
    var s1 := GetU16(s).rest;
    var s2 := GetBytes(s1, a.dnLen).rest;
    var s3 := GetFixed(s2).rest;
    U16Forth(s);
    FixedForth(s2);
    TargetForth(s3);
    assert a.domainName + s2 == s1;
    var tail := PutTarget(a.data) + t;
    assert PutAnswer(a) + t ==
           PutU16(a.dnLen) + (a.domainName + (PutU16(a.answerType) + (PutU16(a.answerClass) + (PutU32(a.ttl) +
           (PutU16(a.dataLen) + tail)))));
  }

  lemma {:induction false} AllForth<T>(
    put: T -> seq<byte>, get: seq<byte> -> Read<T>, fits: T -> bool, s: seq<byte>, n: nat)
    requires forall s' :: get(s').Got? ==> put(get(s').value) + get(s').rest == s' && fits(get(s').value)
    requires GetAll(get, s, n).Got?
    ensures var xs, t := GetAll(get, s, n).value, GetAll(get, s, n).rest;
            PutAll(put, xs) + t == s && |xs| == n && forall i :: 0 <= i < |xs| ==> fits(xs[i])
    decreases n
  {
    hide ValidUtf8;
    if n == 0 {
      assert [] + s == s;
    } else {
      var first, s1 := get(s).value, get(s).rest;
      AllForth(put, get, fits, s1, n - 1);
      var others, t := GetAll(get, s1, n - 1).value, GetAll(get, s1, n - 1).rest;
      assert ([first] + others)[1..] == others;
      Assoc(put(first), PutAll(put, others), t);
    }
  }

  lemma HeaderForth(s: seq<byte>)
    requires GetHeader(s).Got?
    ensures PutHeader(GetHeader(s).value) + GetHeader(s).rest == s
  {
    hide ValidUtf8;
    hide PutU16;
    hide GetU16;
    U16Forth(s);
    var s1 := GetU16(s).rest;
    U16Forth(s1);
    var s2 := GetU16(s1).rest;
    U16Forth(s2);
    var s3 := GetU16(s2).rest;
    U16Forth(s3);
    var s4 := GetU16(s3).rest;
    U16Forth(s4);
    var s5 := GetU16(s4).rest;
    U16Forth(s5);
    var m, t := GetHeader(s).value, GetHeader(s).rest;
    assert PutHeader(m) + t ==
           PutU16(m.transId) + (PutU16(m.parameters) + (PutU16(m.nbQuestions) + (PutU16(m.nbAnswers) +
             (PutU16(m.nbAuthority) + (PutU16(m.nbAdditional) + t)))));
  }

  // ----- The codec -----

  /** Whatever decodes is well formed, and encoding it gives back exactly the bytes that were read:
      a packet has one reading. */
  lemma EncodeAfterDecode(s: seq<byte>)
    requires Decode(s).Got?
    ensures Fits(Decode(s).value) && Encode(Decode(s).value) + Decode(s).rest == s
  {
    hide ValidUtf8;
    hide GetHeader;
    hide PutHeader;
    hide GetQuestion;
    hide PutQuestion;
    hide GetAnswer;
    hide PutAnswer;
    hide GetAll;
    hide PutAll;
    var m := Decode(s).value;
    HeaderForth(s);
    var s1 := GetHeader(s).rest;
    forall s' | GetQuestion(s').Got?
      ensures PutQuestion(GetQuestion(s').value) + GetQuestion(s').rest == s' && QuestionFits(GetQuestion(s').value)
    {
      QuestionForth(s');
    }
    AllForth(PutQuestion, GetQuestion, QuestionFits, s1, m.nbQuestions);
    var s2 := GetAll(GetQuestion, s1, m.nbQuestions).rest;
    forall s' | GetAnswer(s').Got?
      ensures PutAnswer(GetAnswer(s').value) + GetAnswer(s').rest == s' && AnswerFits(GetAnswer(s').value)
    {
      AnswerForth(s');
    }
    AllForth(PutAnswer, GetAnswer, AnswerFits, s2, m.nbAnswers);
    assert PutHeader(m) == PutHeader(GetHeader(s).value) by { SameHeader(m, GetHeader(s).value); }
    assert Encode(m) + Decode(s).rest ==
           PutHeader(m) + (PutAll(PutQuestion, m.questions) + (PutAll(PutAnswer, m.answers) + Decode(s).rest));
  }

  lemma SameHeader(m: DnsMessage, h: DnsMessage)
    requires m.(questions := [], answers := []) == h.(questions := [], answers := [])
    ensures PutHeader(m) == PutHeader(h)
  {
    hide ValidUtf8;
  }

  /** Decoding an encoded message, whatever follows it, gives the message back exactly when its
      declared counts and lengths are the real ones. */
  lemma DecodeAfterEncode(m: DnsMessage, t: seq<byte>)
    ensures Decode(Encode(m) + t) == Got(m, t) <==> Fits(m)
  {
    hide ValidUtf8;
    if Fits(m) {
      MessageBack(m, t);
    }
    if Decode(Encode(m) + t) == Got(m, t) {
      EncodeAfterDecode(Encode(m) + t);
    }
  }

  /** No strict prefix of an encoded message decodes. */
  lemma NoPrefixDecodes(m: DnsMessage, prefix: seq<byte>)
    requires Fits(m) && prefix < Encode(m)
    ensures Decode(prefix).Failed?
  {
    hide ValidUtf8;
    hide Decode;
    hide Encode;
    hide Fits;
    if Decode(prefix).Got? {
      EncodeAfterDecode(prefix);
      var m', rest, cut := Decode(prefix).value, Decode(prefix).rest, Encode(m)[|prefix|..];
      assert Encode(m) == prefix + cut;
      assert Encode(m) + [] == Encode(m') + (rest + cut);
      MessageBack(m', rest + cut);
      MessageBack(m, []);
    }
  }
}
