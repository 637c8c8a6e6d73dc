/** Reading and writing packets the way the program does it: a cursor advanced byte by byte, and a
    buffer appended to. Both are proved against the functions of the codec. */
module DnsPackets {
  import opened DnsCodec
  import opened WireLayout

  datatype Outcome<+T> = Ok(value: T) | Err(error: Error)

  ghost predicate Agrees<T>(outcome: Outcome<T>, read: Read<T>, rest: seq<byte>) {
    match read
    case Got(value, after) => outcome == Ok(value) && rest == after
    case Failed(error) => outcome == Err(error)
  }

  class Cursor {
    const data: seq<byte>
    var pos: nat

    ghost predicate Valid()
      reads this
    {
      pos <= |data|
    }

    ghost function Rest(): seq<byte>
      requires Valid()
      reads this
    {
      data[pos..]
    }

    constructor (packet: seq<byte>)
      ensures Valid() && data == packet && Rest() == packet
    {
      data, pos := packet, 0;
    }

    method ReadU16() returns (r: Outcome<u16>)
      requires Valid()
      modifies this
      ensures Valid() && Agrees(r, GetU16(old(Rest())), Rest())
    {
      if |data| - pos < 2 {
        return Err(UnexpectedEof);
      }
      r := Ok(Join(data[pos], data[pos + 1]));
      pos := pos + 2;
    }

    method ReadU32() returns (r: Outcome<u32>)
      requires Valid()
      modifies this
      ensures Valid() && Agrees(r, GetU32(old(Rest())), Rest())
    {
      if |data| - pos < 4 {
        return Err(UnexpectedEof);
      }
      r := Ok(Words(Join(data[pos], data[pos + 1]), Join(data[pos + 2], data[pos + 3])));
      pos := pos + 4;
    }

    /** One byte at a time, failing at the end of the packet. */
    method ReadBytes(n: nat) returns (r: Outcome<seq<byte>>)
      requires Valid()
      modifies this
      ensures Valid() && Agrees(r, GetBytes(old(Rest()), n), Rest())
    {
      var bytes: seq<byte> := [];
      ghost var start := pos;
      for i := 0 to n
        invariant Valid() && pos == start + i && bytes == data[start..pos]
      {
        if pos == |data| {
          return Err(UnexpectedEof);
        }
        bytes := bytes + [data[pos]];
        pos := pos + 1;
      }
      assert data[start..][..n] == bytes && data[start..][n..] == data[pos..];
      r := Ok(bytes);
    }

    method ReadQuestion() returns (r: Outcome<QuerySection>)
      requires Valid()
      modifies this
      ensures Valid() && Agrees(r, GetQuestion(old(Rest())), Rest())
    {
      hide ValidUtf8;
      hide GetU16;
      hide GetBytes;
      var len := ReadU16();
      if len.Err? { return Err(len.error); }
      var name := ReadBytes(len.value);
      if name.Err? { return Err(name.error); }
      if !ValidUtf8(name.value) { return Err(BadUtf8); }
      var kind := ReadU16();
      if kind.Err? { return Err(kind.error); }
      var class_ := ReadU16();
      if class_.Err? { return Err(class_.error); }
      r := Ok(QuerySection(len.value, name.value, kind.value, class_.value));
    }

    method ReadTarget() returns (r: Outcome<Target>)
      requires Valid()
      modifies this
      ensures Valid() && Agrees(r, GetTarget(old(Rest())), Rest())
    {
      hide ValidUtf8;
      hide GetU16;
      hide GetBytes;
      var len := ReadU16();
      if len.Err? { return Err(len.error); }
      var target := ReadBytes(len.value);
      if target.Err? { return Err(target.error); }
      if !ValidUtf8(target.value) { return Err(BadUtf8); }
      r := Ok(Target(len.value, target.value));
    }

    method ReadFixed() returns (r: Outcome<Fixed>)
      requires Valid()
      modifies this
      ensures Valid() && Agrees(r, GetFixed(old(Rest())), Rest())
    {
      hide GetU16;
      hide GetU32;
      var kind := ReadU16();
      if kind.Err? { return Err(kind.error); }
      var class_ := ReadU16();
      if class_.Err? { return Err(class_.error); }
      var ttl := ReadU32();
      if ttl.Err? { return Err(ttl.error); }
      var dataLen := ReadU16();
      if dataLen.Err? { return Err(dataLen.error); }
      r := Ok(Fixed(kind.value, class_.value, ttl.value, dataLen.value));
    }

    method ReadAnswer() returns (r: Outcome<AnswerSection>)
      requires Valid()
      modifies this
      ensures Valid() && Agrees(r, GetAnswer(old(Rest())), Rest())
    {
      hide ValidUtf8;
      hide GetU16;
      hide GetBytes;
      hide GetFixed;
      hide GetTarget;
      var len := ReadU16();
      if len.Err? { return Err(len.error); }
      var name := ReadBytes(len.value);
      if name.Err? { return Err(name.error); }
      var f := ReadFixed();
      if f.Err? { return Err(f.error); }
      var target := ReadTarget();
      if target.Err? { return Err(target.error); }
      if !ValidUtf8(name.value) { return Err(BadUtf8); }
      r := Ok(AnswerSection(len.value, name.value, f.value.kind, f.value.class_, f.value.ttl, f.value.dataLen,
                            target.value));
    }

    method ReadHeader() returns (r: Outcome<DnsMessage>)
      requires Valid()
      modifies this
      ensures Valid() && Agrees(r, GetHeader(old(Rest())), Rest())
    {
      hide GetU16;
      var transId := ReadU16();
      if transId.Err? { return Err(transId.error); }
      var parameters := ReadU16();
      if parameters.Err? { return Err(parameters.error); }
      var nbQuestions := ReadU16();
      if nbQuestions.Err? { return Err(nbQuestions.error); }
      var nbAnswers := ReadU16();
      if nbAnswers.Err? { return Err(nbAnswers.error); }
      var nbAuthority := ReadU16();
      if nbAuthority.Err? { return Err(nbAuthority.error); }
      var nbAdditional := ReadU16();
      if nbAdditional.Err? { return Err(nbAdditional.error); }
      r := Ok(DnsMessage(transId.value, parameters.value, nbQuestions.value, nbAnswers.value, nbAuthority.value,
                         nbAdditional.value, [], []));
    }

    method ReadQuestions(n: nat) returns (r: Outcome<seq<QuerySection>>)
      requires Valid()
      modifies this
      ensures Valid() && Agrees(r, GetAll(GetQuestion, old(Rest()), n), Rest())
    {
      hide ValidUtf8;
      hide GetQuestion;
      var questions: seq<QuerySection> := [];
      PrependedEmpty(questions, GetAll(GetQuestion, Rest(), n));
      for i := 0 to n
        invariant Valid()
        invariant GetAll(GetQuestion, old(Rest()), n) == Prepended(questions, GetAll(GetQuestion, Rest(), n - i))
      {
        var question := ReadQuestion();
        if question.Err? { return Err(question.error); }
        ghost var later := GetAll(GetQuestion, Rest(), n - i - 1);
        if later.Got? {
          assert questions + ([question.value] + later.value) == (questions + [question.value]) + later.value;
        }
        questions := questions + [question.value];
      }
      PrependedEmpty(questions, GetAll(GetQuestion, Rest(), 0));
      r := Ok(questions);
    }

    method ReadAnswers(n: nat) returns (r: Outcome<seq<AnswerSection>>)
      requires Valid()
      modifies this
      ensures Valid() && Agrees(r, GetAll(GetAnswer, old(Rest()), n), Rest())
    {
      hide ValidUtf8;
      hide GetAnswer;
      var answers: seq<AnswerSection> := [];
      PrependedEmpty(answers, GetAll(GetAnswer, Rest(), n));
      for i := 0 to n
        invariant Valid()
        invariant GetAll(GetAnswer, old(Rest()), n) == Prepended(answers, GetAll(GetAnswer, Rest(), n - i))
      {
        var answer := ReadAnswer();
        if answer.Err? { return Err(answer.error); }
        ghost var later := GetAll(GetAnswer, Rest(), n - i - 1);
        if later.Got? {
          assert answers + ([answer.value] + later.value) == (answers + [answer.value]) + later.value;
        }
        answers := answers + [answer.value];
      }
      PrependedEmpty(answers, GetAll(GetAnswer, Rest(), 0));
      r := Ok(answers);
    }

    method ReadMessage() returns (r: Outcome<DnsMessage>)
      requires Valid()
      modifies this
      ensures Valid() && Agrees(r, Decode(old(Rest())), Rest())
    {
      hide ValidUtf8;
      hide GetHeader;
      hide GetAll;
      var header := ReadHeader();
      if header.Err? { return Err(header.error); }
      var questions := ReadQuestions(header.value.nbQuestions);
      if questions.Err? { return Err(questions.error); }
      var answers := ReadAnswers(header.value.nbAnswers);
      if answers.Err? { return Err(answers.error); }
      r := Ok(header.value.(questions := questions.value, answers := answers.value));
    }
  }

  ghost function Prepended<T>(items: seq<T>, read: Read<seq<T>>): Read<seq<T>> {
    match read
    case Got(more, rest) => Got(items + more, rest)
    case Failed(error) => Failed(error)
  }

  lemma PrependedEmpty<T>(items: seq<T>, read: Read<seq<T>>)
    ensures Prepended([], read) == read
    ensures read.Got? && read.value == [] ==> Prepended(items, read) == Got(items, read.rest)
  {
    if read.Got? {
      assert [] + read.value == read.value;
      if read.value == [] {
        assert items + read.value == items;
      }
    }
  }

  /** DnsMessage::from_raw: trailing bytes are ignored. The packet begins with the message read, and it
      is refused only if it begins with no message. */
  method FromRaw(packet: seq<byte>) returns (r: Outcome<DnsMessage>)
    ensures r.Ok? ==> Fits(r.value) && LaidOut(packet, r.value)
    ensures r.Err? ==> forall m :: Fits(m) ==> !LaidOut(packet, m)
    ensures match Decode(packet)
            case Got(message, _) => r == Ok(message)
            case Failed(error) => r == Err(error)
  {
    hide Decode;
    var cursor := new Cursor(packet);
    r := cursor.ReadMessage();
    hide Fits;
    hide LaidOut;
    ReadExactlyWhen(packet);
  }

  lemma HalvesOfWord(v: u32)
    ensures v == Words(v / 0x1_0000, v % 0x1_0000)
  {
    hide ValidUtf8;
  }

  /** The buffer a packet is written to. */
  class Buffer {
    var bytes: seq<byte>

    constructor ()
      ensures bytes == []
    {
      bytes := [];
    }

    method WriteU16(v: u16)
      modifies this
      ensures bytes == old(bytes) + PutU16(v)
    {
      assert PutU16(v) == [v / 0x100, v % 0x100] by { HalvesForth(v / 0x100, v % 0x100); }
      bytes := bytes + [v / 0x100];
      bytes := bytes + [v % 0x100];
    }

    method WriteU32(v: u32)
      modifies this
      ensures bytes == old(bytes) + PutU32(v)
    {
      hide PutU16;
      hide PutU32;
      hide Words;
      var hi: u16, lo: u16 := v / 0x1_0000, v % 0x1_0000;
      assert v == Words(hi, lo) by { HalvesOfWord(v); }
      WordsForth(hi, lo);
      WriteU16(hi);
      WriteU16(lo);
    }

    /** One byte at a time. */
    method WriteBytes(text: seq<byte>)
      modifies this
      ensures bytes == old(bytes) + text
    {
      for i := 0 to |text|
        invariant bytes == old(bytes) + text[..i]
      {
        bytes := bytes + [text[i]];
      }
      assert text[..|text|] == text;
    }

    method WriteQuestion(q: QuerySection)
      modifies this
      ensures bytes == old(bytes) + PutQuestion(q)
    {
      hide ValidUtf8;
      hide PutU16;
      WriteU16(q.dnLen);
      WriteBytes(q.domainName);
      WriteU16(q.queryType);
      WriteU16(q.queryClass);
    }

    method WriteTarget(x: Target)
      modifies this
      ensures bytes == old(bytes) + PutTarget(x)
    {
      hide ValidUtf8;
      hide PutU16;
      WriteU16(x.targetLen);
      WriteBytes(x.target);
    }

    method WriteAnswer(a: AnswerSection)
      modifies this
      ensures bytes == old(bytes) + PutAnswer(a)
    {
      hide ValidUtf8;
      hide PutU16;
      hide PutU32;
      hide PutTarget;
      WriteU16(a.dnLen);
      WriteBytes(a.domainName);
      WriteU16(a.answerType);
      WriteU16(a.answerClass);
      WriteU32(a.ttl);
      WriteU16(a.dataLen);
      WriteTarget(a.data);
    }

    method WriteHeader(m: DnsMessage)
      modifies this
      ensures bytes == old(bytes) + PutHeader(m)
    {
      hide ValidUtf8;
      hide PutU16;
      WriteU16(m.transId);
      WriteU16(m.parameters);
      WriteU16(m.nbQuestions);
      WriteU16(m.nbAnswers);
      WriteU16(m.nbAuthority);
      WriteU16(m.nbAdditional);
    }

    method WriteQuestions(qs: seq<QuerySection>)
      modifies this
      ensures bytes == old(bytes) + PutAll(PutQuestion, qs)
    {
      hide ValidUtf8;
      hide PutQuestion;
      assert qs[0..] == qs;
      for i := 0 to |qs|
        invariant bytes + PutAll(PutQuestion, qs[i..]) == old(bytes) + PutAll(PutQuestion, qs)
      {
        assert qs[i..][0] == qs[i] && qs[i..][1..] == qs[i + 1..];
        Assoc(bytes, PutQuestion(qs[i]), PutAll(PutQuestion, qs[i + 1..]));
        WriteQuestion(qs[i]);
      }
      assert PutAll(PutQuestion, []) == [];
    }

    method WriteAnswers(xs: seq<AnswerSection>)
      modifies this
      ensures bytes == old(bytes) + PutAll(PutAnswer, xs)
    {
      hide ValidUtf8;
      hide PutAnswer;
      assert xs[0..] == xs;
      for i := 0 to |xs|
        invariant bytes + PutAll(PutAnswer, xs[i..]) == old(bytes) + PutAll(PutAnswer, xs)
      {
        assert xs[i..][0] == xs[i] && xs[i..][1..] == xs[i + 1..];
        Assoc(bytes, PutAnswer(xs[i]), PutAll(PutAnswer, xs[i + 1..]));
        WriteAnswer(xs[i]);
      }
      assert PutAll(PutAnswer, []) == [];
    }
  }

  /** DnsMessage::to_raw: header, questions and answers appended to one buffer. */
  method ToRaw(m: DnsMessage) returns (packet: seq<byte>)
    ensures packet == Encode(m)
    ensures LaidOut(packet, m) && |packet| == Size(m)
  {
    hide ValidUtf8;
    hide PutHeader;
    hide PutAll;
    var buffer := new Buffer();
    buffer.WriteHeader(m);
    buffer.WriteQuestions(m.questions);
    buffer.WriteAnswers(m.answers);
    packet := buffer.bytes;
    EncodedExactlyWhen(packet, m);
  }
}
