/** The event lines of a log, as the two regular expressions describe them. */
module EventLines {
  import opened Outcomes
  import opened Text
  import opened LogParsers

  /** The white space and the digits of an event line. */
  datatype Pieces = Pieces(lead: string, w1: string, digits: string, w2: string, w3: string, w4: string)

  /** `\s*workitem\s+\d+\s+<verb>\s*:\s*`, and what stands behind it. */
  function EventText(p: Pieces, verb: string, rest: string): string {
    p.lead + ("workitem" + (p.w1 + (p.digits + (p.w2 + (verb + (p.w3 + (":" + (p.w4 + rest))))))))
  }

  predicate ArePieces(p: Pieces) {
    && AllSpaces(p.lead) && AllSpaces(p.w1) && AllSpaces(p.w2) && AllSpaces(p.w3) && AllSpaces(p.w4)
    && p.w1 != "" && p.w2 != "" && p.digits != "" && AllDigits(p.digits)
  }

  predicate StartsVisible(s: string) {
    s == "" || !IsSpace(s[0])
  }

  lemma LiteralRead(word: string, s: string)
    ensures Literal(word, word + s) == Some(s)
  {
    assert (word + s)[|word|..] == s;
  }

  lemma LiteralForm(word: string, s: string)
    requires Literal(word, s).Some?
    ensures s == word + Literal(word, s).value
  {
  }

  lemma Spaces1Read(spaces: string, s: string)
    requires AllSpaces(spaces) && spaces != "" && StartsVisible(s)
    ensures Spaces1(spaces + s) == Some(s)
  {
    SkipSpacesOver(spaces, s);
  }

  lemma Digits1Read(digits: string, s: string)
    requires digits != "" && AllDigits(digits) && !StartsWithDigit(s)
    ensures Digits1(digits + s) == Some((Value(digits), s))
  {
    DigitRunOf(digits, s);
  }

  lemma NumberRead(p: Pieces, s4: string)
    requires ArePieces(p) && s4 != "" && !IsSpace(s4[0])
    ensures ItemNumber(p.lead + ("workitem" + (p.w1 + (p.digits + (p.w2 + s4))))) == Some((Value(p.digits), s4))
  {
    var s3 := p.w2 + s4;
    var s2 := p.digits + s3;
    var s1 := p.w1 + s2;
    assert s3[0] == p.w2[0] && s2[0] == p.digits[0];
    SkipSpacesOver(p.lead, "workitem" + s1);
    LiteralRead("workitem", s1);
    Spaces1Read(p.w1, s2);
    Digits1Read(p.digits, s3);
    Spaces1Read(p.w2, s4);
  }

  lemma PrefixRead(p: Pieces, verb: string, rest: string)
    requires ArePieces(p) && verb != "" && !IsSpace(verb[0]) && StartsVisible(rest)
    ensures ItemPrefix(EventText(p, verb, rest), verb) == Some((Value(p.digits), rest))
  {
    var s6 := p.w4 + rest;
    var s5 := p.w3 + (":" + s6);
    NumberRead(p, verb + s5);
    LiteralRead(verb, s5);
    SkipSpacesOver(p.w3, ":" + s6);
    LiteralRead(":", s6);
    SkipSpacesOver(p.w4, rest);
  }

  lemma OtherVerbRead(p: Pieces, verb: string, other: string, rest: string)
    requires ArePieces(p) && verb != "" && !IsSpace(verb[0]) && other != "" && verb[0] != other[0]
    ensures ItemPrefix(EventText(p, verb, rest), other) == None
  {
    NumberRead(p, verb + (p.w3 + (":" + (p.w4 + rest))));
  }

  lemma NumberForm(text: string) returns (p: Pieces, s4: string)
    requires ItemNumber(text).Some?
    ensures ArePieces(p) && p.w3 == "" && p.w4 == ""
    ensures text == p.lead + ("workitem" + (p.w1 + (p.digits + (p.w2 + s4))))
    ensures ItemNumber(text) == Some((Value(p.digits), s4))
  {
    var lead := Skipped(text);
    var s1 := Literal("workitem", SkipSpaces(text)).value;
    LiteralForm("workitem", SkipSpaces(text));
    var w1 := Skipped(s1);
    var s2 := SkipSpaces(s1);
    var k := DigitRun(s2);
    var s3 := s2[k..];
    assert s2 == s2[..k] + s3;
    var w2 := Skipped(s3);
    s4 := SkipSpaces(s3);
    p := Pieces(lead, w1, s2[..k], w2, "", "");
  }

  /** A text with such a front has exactly this form. */
  lemma PrefixForm(text: string, verb: string) returns (p: Pieces, rest: string)
    requires ItemPrefix(text, verb).Some?
    ensures ArePieces(p) && text == EventText(p, verb, rest)
    ensures ItemPrefix(text, verb) == Some((Value(p.digits), rest))
  {
    var s4;
    p, s4 := NumberForm(text);
    var s5 := Literal(verb, s4).value;
    LiteralForm(verb, s4);
    var w3 := Skipped(s5);
    var s6 := Literal(":", SkipSpaces(s5)).value;
    LiteralForm(":", SkipSpaces(s5));
    var w4 := Skipped(s6);
    rest := SkipSpaces(s6);
    p := p.(w3 := w3, w4 := w4);
  }

  predicate AreWordChars(s: string) {
    forall i :: 0 <= i < |s| ==> IsWordChar(s[i])
  }

  lemma {:induction false} WordRunOf(word: string, tail: string)
    requires AreWordChars(word) && (tail == "" || !IsWordChar(tail[0]))
    ensures WordRun(word + tail) == |word|
  {
    if word == "" {
      assert word + tail == tail;
    } else {
      assert (word + tail)[1..] == word[1..] + tail;
      WordRunOf(word[1..], tail);
    }
  }

  /** Any white space, any number, and anything behind the client. */
  lemma StartedMatched(time: int, p: Pieces, client: string, tail: string)
    requires ArePieces(p) && client != "" && AreWordChars(client) && (tail == "" || !IsWordChar(tail[0]))
    ensures Classify(LogLine(time, EventText(p, "started", client + tail))) == Started(Value(p.digits), client)
  {
    assert IsWordChar((client + tail)[0]);
    PrefixRead(p, "started", client + tail);
    WordRunOf(client, tail);
  }

  /** No other line is a started line. */
  lemma StartedForm(line: LogLine) returns (p: Pieces, client: string, tail: string)
    requires Classify(line).Started?
    ensures line.LogLine? && ArePieces(p) && line.text == EventText(p, "started", client + tail)
    ensures client != "" && AreWordChars(client) && (tail == "" || !IsWordChar(tail[0]))
    ensures Classify(line) == Started(Value(p.digits), client)
  {
    var rest;
    p, rest := PrefixForm(line.text, "started");
    var k := WordRun(rest);
    client, tail := rest[..k], rest[k..];
    assert rest == client + tail;
  }

  function Signed(negative: bool, n: nat): int {
    if negative then -(n as int) else n
  }

  lemma StatusRead(negative: bool, digits: string, tail: string)
    requires digits != "" && AllDigits(digits) && !StartsWithDigit(tail)
    ensures var rest := (if negative then "-" else "") + (digits + tail);
      && rest != "" && !IsSpace(rest[0]) && (rest[0] == '-' <==> negative)
      && Digits1(if negative then rest[1..] else rest) == Some((Value(digits), tail))
  {
    var rest := (if negative then "-" else "") + (digits + tail);
    assert (digits + tail)[0] == digits[0] && IsDigit(digits[0]);
    assert rest[0] == if negative then '-' else digits[0];
    assert (if negative then rest[1..] else rest) == digits + tail;
    Digits1Read(digits, tail);
  }

  lemma DoneMatched(time: int, p: Pieces, negative: bool, digits: string, tail: string)
    requires ArePieces(p) && digits != "" && AllDigits(digits) && !StartsWithDigit(tail)
    ensures Classify(LogLine(time, EventText(p, "done", (if negative then "-" else "") + (digits + tail))))
         == Done(Value(p.digits), Signed(negative, Value(digits)))
  {
    var rest := (if negative then "-" else "") + (digits + tail);
    StatusRead(negative, digits, tail);
    PrefixRead(p, "done", rest);
    OtherVerbRead(p, "done", "started", rest);
  }

  lemma DoneForm(line: LogLine) returns (p: Pieces, negative: bool, digits: string, tail: string)
    requires Classify(line).Done?
    ensures line.LogLine? && ArePieces(p)
    ensures line.text == EventText(p, "done", (if negative then "-" else "") + (digits + tail))
    ensures digits != "" && AllDigits(digits) && !StartsWithDigit(tail)
    ensures Classify(line) == Done(Value(p.digits), Signed(negative, Value(digits)))
  {
    var rest;
    p, rest := PrefixForm(line.text, "done");
    negative := rest != "" && rest[0] == '-';
    var body := if negative then rest[1..] else rest;
    var k := DigitRun(body);
    digits, tail := body[..k], body[k..];
    assert body == digits + tail;
    assert rest == (if negative then "-" else "") + body;
  }
}
