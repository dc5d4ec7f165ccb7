/** Messages between server and clients, their text form, and the message builder. */
module Messages {
  import opened Outcomes
  import opened Text

  predicate IsHyphenPosition(i: nat) {
    i == 8 || i == 13 || i == 18 || i == 23
  }

  predicate IsHexDigit(c: char) {
    IsDigit(c) || 'a' <= c <= 'f'
  }

  /** The text form of a UUID, section 3 of RFC 4122, as it is printed. */
  predicate IsUuidText(s: string) {
    && |s| == 36
    && forall i :: 0 <= i < 36 ==> if IsHyphenPosition(i) then s[i] == '-' else IsHexDigit(s[i])
  }

  type UuidText = s: string | IsUuidText(s)
    witness seq(36, i => if i == 8 || i == 13 || i == 18 || i == 23 then '-' else '0')

  datatype Uuid = Uuid(text: UuidText)

  /** Any character can be cast to a subject; seven of them are enumerators. */
  datatype Subject = Ack | Query | Result | Work | AckStop | Stop | Invalid | Unnamed(code: char)

  function SubjectCode(subject: Subject): char {
    match subject
    case Ack => 'a'
    case Query => 'q'
    case Result => 'r'
    case Work => 'w'
    case AckStop => 'x'
    case Stop => 's'
    case Invalid => 'i'
    case Unnamed(c) => c
  }

  function SubjectOf(c: char): Subject {
    match c
    case 'a' => Ack
    case 'q' => Query
    case 'r' => Result
    case 'w' => Work
    case 'x' => AckStop
    case 's' => Stop
    case 'i' => Invalid
    case _ => Unnamed(c)
  }

  datatype Message = Message(from: Uuid, to: Uuid, subject: Subject, id: SizeT, content: string)

  /** What every message built from an enumerator and a std::string satisfies. */
  predicate WellFormed(m: Message) {
    !m.subject.Unnamed? && |m.content| < SIZE_LIMIT
  }

  /** Fields in order, each followed by a blank; the content is last and length-prefixed. */
  function Print(m: Message): string {
    m.from.text + ([' '] + (m.to.text + ([' '] + ([SubjectCode(m.subject)]
    + ([' '] + (Decimal(m.id) + ([' '] + (Decimal(|m.content|) + ([' '] + m.content)))))))))
  }

  /** `stream >> uuid`. */
  function ReadUuid(s: string): Option<(Uuid, string)> {
    var t := SkipBlanks(s);
    if |t| >= 36 && IsUuidText(t[..36]) then Some((Uuid(t[..36]), t[36..])) else None
  }

  function Need<T>(read: Option<T>, error: string): Outcome<T, string> {
    match read
    case Some(x) => Ok(x)
    case None => Err(error)
  }

  function Parse(str: string): Outcome<Message, string> {
    var (from, in1) :- Need(ReadUuid(str), "can't read origin UUID");
    var (to, in2) :- Need(ReadUuid(in1), "can't read destination UUID");
    var (code, in3) :- Need(ReadChar(in2), "can't read subject");
    var (id, in4) :- Need(ReadSize(in3), "can't read id");
    var (length, in5) :- Need(ReadSize(in4), "can't read length");
    var content := if length == 0 then "" else ReadBlock(ReadBlock(in5, 1).1, length).0;
    Ok(Message(from, to, SubjectOf(code), id, content))
  }

  lemma ReadUuidPrinted(u: Uuid, tail: string)
    ensures ReadUuid(u.text + tail) == Some((u, tail))
    ensures ReadUuid([' '] + (u.text + tail)) == Some((u, tail))
  {
    var t := u.text + tail;
    assert t[0] == u.text[0] && IsHexDigit(u.text[0]);
    assert SkipBlanks(t) == t;
    assert t[..36] == u.text && t[36..] == tail;
    SkipOneBlank(t);
  }

  /** What is parsed, given what each read yields. */
  lemma ParsedFields(str: string, from: Uuid, in1: string, to: Uuid, in2: string, code: char, in3: string,
                     id: SizeT, in4: string, length: SizeT, in5: string)
    requires ReadUuid(str) == Some((from, in1)) && ReadUuid(in1) == Some((to, in2))
    requires ReadChar(in2) == Some((code, in3))
    requires ReadSize(in3) == Some((id, in4)) && ReadSize(in4) == Some((length, in5))
    ensures var content := if length == 0 then "" else ReadBlock(ReadBlock(in5, 1).1, length).0;
      Parse(str) == Ok(Message(from, to, SubjectOf(code), id, content))
  {
  }

  /** A block of the given length: what is missing is filled with NUL characters. */
  function Padded(text: string, length: nat): string {
    if |text| >= length then text[..length] else text + seq(length - |text|, _ => '\0')
  }

  lemma ReadContent(text: string, length: nat)
    ensures ReadBlock(ReadBlock([' '] + text, 1).1, length).0 == Padded(text, length)
  {
    assert ([' '] + text)[1..] == text;
  }

  lemma ReadSubject(subject: Subject, tail: string)
    requires !subject.Unnamed?
    ensures ReadChar([' '] + ([SubjectCode(subject)] + tail)) == Some((SubjectCode(subject), tail))
    ensures SubjectOf(SubjectCode(subject)) == subject
  {
    SkipOneBlank([SubjectCode(subject)] + tail);
  }

  /** Everything in front of the content. */
  function Head(m: Message): string {
    m.from.text + ([' '] + (m.to.text + ([' '] + ([SubjectCode(m.subject)]
    + ([' '] + (Decimal(m.id) + ([' '] + (Decimal(|m.content|) + [' ']))))))))
  }

  lemma HeadAndContent(m: Message, text: string)
    ensures Head(m) + text
         == m.from.text + ([' '] + (m.to.text + ([' '] + ([SubjectCode(m.subject)]
            + ([' '] + (Decimal(m.id) + ([' '] + (Decimal(|m.content|) + ([' '] + text)))))))))
  {
  }

  /** What is parsed depends on what stands behind the head only as far as the given length:
      more text is ignored, and missing text is filled with NUL characters. */
  lemma HeadParsed(m: Message, text: string)
    requires WellFormed(m)
    ensures Parse(Head(m) + text) == Ok(m.(content := Padded(text, |m.content|)))
  {
    var t5 := [' '] + text;
    var t4 := [' '] + (Decimal(|m.content|) + t5);
    var t3 := [' '] + (Decimal(m.id) + t4);
    var t2 := [' '] + ([SubjectCode(m.subject)] + t3);
    var t1 := [' '] + (m.to.text + t2);
    var str := m.from.text + t1;
    assert str == Head(m) + text by { HeadAndContent(m, text); }
    assert ReadUuid(str) == Some((m.from, t1)) by { ReadUuidPrinted(m.from, t1); }
    assert ReadUuid(t1) == Some((m.to, t2)) by { ReadUuidPrinted(m.to, t2); }
    ReadSubject(m.subject, t3);
    assert ReadSize(t3) == Some((m.id, t4)) by { ReadSizePrinted(m.id, t4); }
    assert ReadSize(t4) == Some((|m.content|, t5)) by { ReadSizePrinted(|m.content|, t5); }
    ReadContent(text, |m.content|);
    ParsedFields(str, m.from, t1, m.to, t2, SubjectCode(m.subject), t3, m.id, t4, |m.content|, t5);
  }

  /** Whatever the content, a printed message is parsed back to the same five fields. */
  lemma RoundTrip(m: Message)
    requires WellFormed(m)
    ensures Parse(Print(m)) == Ok(m)
  {
    HeadAndContent(m, m.content);
    HeadParsed(m, m.content);
    assert m.content[..|m.content|] == m.content;
  }

  lemma FieldAt(field: UuidText, rest: string)
    ensures var text := field + ([' '] + rest); text[..36] == field && text[36] == ' ' && text[37..] == rest
  {
  }

  lemma CodeAt(code: char, rest: string)
    ensures var text := [code] + ([' '] + rest); text[0] == code && text[1] == ' ' && text[2..] == rest
  {
  }

  /** Where the fields of a printed message stand, and the letter of each subject. */
  lemma PrintedFields(m: Message)
    requires !m.subject.Unnamed?
    ensures |Print(m)| > 76
    ensures var text := Print(m);
      var behindFrom := text[37..]; var behindTo := behindFrom[37..];
      && text[..36] == m.from.text && text[36] == ' '
      && behindFrom[..36] == m.to.text && behindFrom[36] == ' '
      && behindTo[0] == (match m.subject
                         case Ack => 'a' case Query => 'q' case Result => 'r' case Work => 'w'
                         case AckStop => 'x' case Stop => 's' case Invalid => 'i')
      && behindTo[1] == ' '
      && behindTo[2..] == Decimal(m.id) + ([' '] + (Decimal(|m.content|) + ([' '] + m.content)))
  {
    var t3 := Decimal(m.id) + ([' '] + (Decimal(|m.content|) + ([' '] + m.content)));
    var t2 := [SubjectCode(m.subject)] + ([' '] + t3);
    var t1 := m.to.text + ([' '] + t2);
    assert Print(m) == m.from.text + ([' '] + t1);
    FieldAt(m.from.text, t1);
    FieldAt(m.to.text, t2);
    CodeAt(SubjectCode(m.subject), t3);
  }

  lemma UuidAtEnd(u: Uuid)
    ensures ReadUuid(u.text) == Some((u, "")) && ReadUuid([' '] + u.text) == Some((u, ""))
  {
    ReadUuidPrinted(u, "");
    assert u.text + "" == u.text;
  }

  /** A message that ends behind one of its fields gives the error of the next one. */
  lemma EndsBehindTo(m: Message)
    ensures Parse(m.from.text) == Err("can't read destination UUID")
    ensures Parse(m.from.text + ([' '] + m.to.text)) == Err("can't read subject")
  {
    UuidAtEnd(m.from);
    UuidAtEnd(m.to);
    ReadUuidPrinted(m.from, [' '] + m.to.text);
  }

  lemma EndsBehindSubject(m: Message)
    requires !m.subject.Unnamed?
    ensures Parse(m.from.text + ([' '] + (m.to.text + ([' '] + [SubjectCode(m.subject)])))) == Err("can't read id")
  {
    var c := [SubjectCode(m.subject)];
    ReadUuidPrinted(m.from, [' '] + (m.to.text + ([' '] + c)));
    ReadUuidPrinted(m.to, [' '] + c);
    ReadSubject(m.subject, "");
    assert c + "" == c;
  }

  lemma EndsBehindId(m: Message)
    requires !m.subject.Unnamed?
    ensures Parse(m.from.text + ([' '] + (m.to.text + ([' '] + ([SubjectCode(m.subject)] + ([' '] + Decimal(m.id)))))))
         == Err("can't read length")
  {
    var t3 := [' '] + Decimal(m.id);
    var t2 := [' '] + ([SubjectCode(m.subject)] + t3);
    ReadUuidPrinted(m.from, [' '] + (m.to.text + t2));
    ReadUuidPrinted(m.to, t2);
    ReadSubject(m.subject, t3);
    ReadSizePrinted(m.id, "");
    assert Decimal(m.id) + "" == Decimal(m.id);
  }

  /** Two different messages never look alike on the wire. */
  lemma PrintInjective(m: Message, n: Message)
    requires WellFormed(m) && WellFormed(n) && Print(m) == Print(n)
    ensures m == n
  {
    RoundTrip(m);
    RoundTrip(n);
  }

  /** The empty message that is left behind by a time-out cannot be parsed. */
  lemma EmptyReplyFails()
    ensures Parse("") == Err("can't read origin UUID")
  {
  }

  class MessageBuilder {
    const from: Uuid
    var to: Uuid
    var subject: Subject
    var id: SizeT
    var content: string

    constructor (processId: Uuid)
      ensures from == processId && subject == Invalid && Clean()
    {
      from, subject, id, content := processId, Invalid, 0, "";
    }

    /** No id or content is left from an earlier message. */
    predicate Clean()
      reads this
    {
      id == 0 && content == ""
    }

    method SetTo(dest: Uuid)
      modifies this`to
      ensures to == dest
    {
      to := dest;
    }

    method SetSubject(s: Subject)
      modifies this`subject
      ensures subject == s
    {
      subject := s;
    }

    method SetId(n: SizeT)
      modifies this`id
      ensures id == n
    {
      id := n;
    }

    method SetContent(str: string)
      modifies this`content
      ensures content == str
    {
      content := str;
    }

    /** The message that was described; the builder forgets its id and content. */
    method Build() returns (m: Message)
      modifies this`id, this`content
      ensures m == Message(from, to, subject, old(id), old(content))
      ensures Clean()
    {
      m := Message(from, to, subject, id, content);
      id := 0;
      content := "";
    }

    /** Reads a message without touching the builder. */
    method BuildFrom(str: string) returns (r: Outcome<Message, string>)
      ensures r == Parse(str)
    {
      var input := str;
      var origin := ReadUuid(input);
      if origin.None? { return Err("can't read origin UUID"); }
      input := origin.value.1;
      var destination := ReadUuid(input);
      if destination.None? { return Err("can't read destination UUID"); }
      input := destination.value.1;
      var buffer := ReadChar(input);
      if buffer.None? { return Err("can't read subject"); }
      input := buffer.value.1;
      var number := ReadSize(input);
      if number.None? { return Err("can't read id"); }
      input := number.value.1;
      var length := ReadSize(input);
      if length.None? { return Err("can't read length"); }
      input := length.value.1;
      var text := "";
      if length.value.0 > 0 {
        input := ReadBlock(input, 1).1;
        text := ReadBlock(input, length.value.0).0;
      }
      return Ok(Message(origin.value.0, destination.value.0, SubjectOf(buffer.value.0),
                        number.value.0, text));
    }
  }
}
