/** Characters, decimal numbers, and the formatted reads of a C++ input stream.
    A stream is the text not read yet; a read yields the value and what is left. */
module Text {
  import opened Outcomes

  /** The largest size_t plus one, and the largest int plus one. */
  const SIZE_LIMIT: nat := 0x1_0000_0000_0000_0000
  const INT_LIMIT: int := 0x8000_0000

  type SizeT = n: nat | n < SIZE_LIMIT
  type CInt = n: int | -INT_LIMIT <= n < INT_LIMIT

  /** `++n` on a size_t. */
  function Increment(n: SizeT): (r: SizeT)
    ensures r == (n + 1) % SIZE_LIMIT
  {
    if n + 1 == SIZE_LIMIT then 0 else n + 1
  }

  predicate IsDigit(c: char) {
    '0' <= c <= '9'
  }

  predicate IsBlank(c: char) {
    c == ' ' || '\t' <= c <= '\r'
  }

  /** White space as Python sees it: blanks and the four ASCII separators. */
  predicate IsSpace(c: char) {
    IsBlank(c) || '\U{1C}' <= c <= '\U{1F}'
  }

  predicate AllDigits(s: string) {
    forall i :: 0 <= i < |s| ==> IsDigit(s[i])
  }

  predicate StartsWithDigit(s: string) {
    s != "" && IsDigit(s[0])
  }

  lemma Reassociate<T>(a: seq<T>, b: seq<T>, c: seq<T>)
    ensures (a + b) + c == a + (b + c)
  {
  }

  // ---------------------------------------------------------------- decimals

  function DigitChar(d: nat): (c: char)
    requires d < 10
    ensures IsDigit(c) && c as int - '0' as int == d
  {
    ('0' as int + d) as char
  }

  function Decimal(n: nat): (s: string)
    ensures s != "" && AllDigits(s)
  {
    if n < 10 then [DigitChar(n)] else Decimal(n / 10) + [DigitChar(n % 10)]
  }

  function Value(digits: string): nat
    requires AllDigits(digits)
  {
    if digits == "" then 0
    else
      var last := |digits| - 1;
      10 * Value(digits[..last]) + (digits[last] as int - '0' as int)
  }

  function PrintInt(n: int): string {
    if n < 0 then "-" + Decimal(-n) else Decimal(n)
  }

  /** No number is printed with a leading zero. */
  lemma {:induction false} NoLeadingZero(n: nat)
    ensures |Decimal(n)| > 1 ==> Decimal(n)[0] != '0'
    ensures n > 0 ==> Decimal(n)[0] != '0'
  {
    if n < 10 {
    } else {
      NoLeadingZero(n / 10);
      assert Decimal(n)[0] == Decimal(n / 10)[0];
    }
  }

  lemma {:induction false} ValueOfDecimal(n: nat)
    ensures Value(Decimal(n)) == n
  {
    if n < 10 {
    } else {
      var s := Decimal(n);
      assert s[..|s| - 1] == Decimal(n / 10);
      ValueOfDecimal(n / 10);
    }
  }

  /** The number of digits at the front of a text. */
  function DigitRun(s: string): (k: nat)
    ensures k <= |s| && AllDigits(s[..k])
    ensures k == |s| || !IsDigit(s[k])
  {
    if StartsWithDigit(s) then
      assert s[..1 + DigitRun(s[1..])] == [s[0]] + s[1..][..DigitRun(s[1..])];
      1 + DigitRun(s[1..])
    else 0
  }

  lemma {:induction false} DigitRunOf(digits: string, tail: string)
    requires AllDigits(digits) && !StartsWithDigit(tail)
    ensures DigitRun(digits + tail) == |digits|
    ensures (digits + tail)[..|digits|] == digits && (digits + tail)[|digits|..] == tail
  {
    if digits == "" {
      assert digits + tail == tail;
    } else {
      DigitRunOf(digits[1..], tail);
      assert (digits + tail)[1..] == digits[1..] + tail;
    }
  }

  // ---------------------------------------------------------- formatted reads

  function SkipBlanks(s: string): string {
    if s != "" && IsBlank(s[0]) then SkipBlanks(s[1..]) else s
  }

  /** The text behind any white space at its front. */
  function SkipSpaces(s: string): string {
    if s != "" && IsSpace(s[0]) then SkipSpaces(s[1..]) else s
  }

  predicate AllSpaces(s: string) {
    forall i :: 0 <= i < |s| ==> IsSpace(s[i])
  }

  lemma SpacesJoined(x: string, y: string)
    requires AllSpaces(x) && AllSpaces(y)
    ensures AllSpaces(x + y)
  {
  }

  lemma {:induction false} SkipSpacesParts(s: string)
    ensures |SkipSpaces(s)| <= |s| && SkipSpaces(s) == s[|s| - |SkipSpaces(s)|..]
    ensures AllSpaces(s[..|s| - |SkipSpaces(s)|])
    ensures SkipSpaces(s) == "" || !IsSpace(SkipSpaces(s)[0])
  {
    if s == "" || !IsSpace(s[0]) {
      assert SkipSpaces(s) == s && s[..0] == "";
    } else {
      var tail := s[1..];
      SkipSpacesParts(tail);
      var k := |tail| - |SkipSpaces(tail)|;
      assert s[k + 1..] == tail[k..];
      assert s[..k + 1] == [s[0]] + tail[..k];
      SpacesJoined([s[0]], tail[..k]);
    }
  }

  /** White space is skipped whatever stands behind it. */
  lemma {:induction false} SkipSpacesOver(spaces: string, s: string)
    requires AllSpaces(spaces) && (s == "" || !IsSpace(s[0]))
    ensures SkipSpaces(spaces + s) == s
  {
    if spaces == "" {
      assert spaces + s == s;
    } else {
      assert (spaces + s)[1..] == spaces[1..] + s;
      SkipSpacesOver(spaces[1..], s);
    }
  }

  /** What was skipped, and that nothing is left to skip. */
  lemma Skipped(s: string) returns (spaces: string)
    ensures AllSpaces(spaces) && s == spaces + SkipSpaces(s)
    ensures SkipSpaces(s) == "" || !IsSpace(SkipSpaces(s)[0])
    ensures s != "" && IsSpace(s[0]) ==> spaces != ""
  {
    SkipSpacesParts(s);
    spaces := s[..|s| - |SkipSpaces(s)|];
  }

  lemma SkipOneBlank(s: string)
    ensures SkipBlanks([' '] + s) == SkipBlanks(s)
  {
    assert ([' '] + s)[1..] == s;
  }

  /** `stream >> c`: the next character that is not blank. */
  function ReadChar(s: string): Option<(char, string)> {
    var t := SkipBlanks(s);
    if t == "" then None else Some((t[0], t[1..]))
  }

  /** An optional sign and a non-empty run of digits, after any blanks. */
  function ReadSigned(s: string): Option<(bool, nat, string)> {
    var t := SkipBlanks(s);
    var negative := t != "" && t[0] == '-';
    var body := if t != "" && (t[0] == '-' || t[0] == '+') then t[1..] else t;
    var k := DigitRun(body);
    if k == 0 then None else Some((negative, Value(body[..k]), body[k..]))
  }

  /** `stream >> n` for a size_t: a value out of range fails, a minus sign wraps around. */
  function ReadSize(s: string): Option<(SizeT, string)> {
    match ReadSigned(s)
    case None => None
    case Some((negative, magnitude, rest)) =>
      if magnitude >= SIZE_LIMIT then None
      else if negative && magnitude > 0 then Some((SIZE_LIMIT - magnitude, rest))
      else Some((magnitude, rest))
  }

  /** `stream >> n` for an int: a value out of range fails. */
  function ReadInt(s: string): Option<(CInt, string)> {
    match ReadSigned(s)
    case None => None
    case Some((negative, magnitude, rest)) =>
      var n: int := if negative then -(magnitude as int) else magnitude;
      if -INT_LIMIT <= n < INT_LIMIT then Some((n, rest)) else None
  }

  lemma ReadDigits(n: nat, tail: string)
    requires !StartsWithDigit(tail)
    ensures var body := Decimal(n) + tail;
      && body != "" && IsDigit(body[0])
      && DigitRun(body) == |Decimal(n)| > 0
      && Value(body[..DigitRun(body)]) == n && body[DigitRun(body)..] == tail
  {
    DigitRunOf(Decimal(n), tail);
    ValueOfDecimal(n);
  }

  lemma ReadSignedPrinted(n: int, tail: string)
    requires !StartsWithDigit(tail)
    ensures ReadSigned(PrintInt(n) + tail) == Some((n < 0, if n < 0 then -n else n, tail))
  {
    if n < 0 {
      var body := Decimal(-n) + tail;
      ReadDigits(-n, tail);
      Reassociate("-", Decimal(-n), tail);
      var s := "-" + body;
      assert SkipBlanks(s) == s && s[1..] == body;
    } else {
      ReadDigits(n, tail);
      var s := Decimal(n) + tail;
      assert SkipBlanks(s) == s;
    }
  }

  /** A printed int is read back, and the reading stops right behind it. */
  lemma ReadIntPrinted(n: CInt, tail: string)
    requires !StartsWithDigit(tail)
    ensures ReadInt(PrintInt(n) + tail) == Some((n, tail))
  {
    ReadSignedPrinted(n, tail);
  }

  lemma {:induction false} SkipBlanksOver(blanks: string, s: string)
    requires (forall i :: 0 <= i < |blanks| ==> IsBlank(blanks[i])) && (s == "" || !IsBlank(s[0]))
    ensures SkipBlanks(blanks + s) == s
  {
    if blanks == "" {
      assert blanks + s == s;
    } else {
      assert (blanks + s)[1..] == blanks[1..] + s;
      SkipBlanksOver(blanks[1..], s);
    }
  }

  /** Blanks, a sign or none, and any digits, leading zeros included. */
  lemma SignedRead(blanks: string, sign: string, digits: string, tail: string)
    requires forall i :: 0 <= i < |blanks| ==> IsBlank(blanks[i])
    requires sign in ["", "-", "+"] && digits != "" && AllDigits(digits) && !StartsWithDigit(tail)
    ensures ReadSigned(blanks + (sign + (digits + tail))) == Some((sign == "-", Value(digits), tail))
  {
    var body := digits + tail;
    var s := sign + body;
    assert body[0] == digits[0] && (if sign == "" then s == body else s[0] == sign[0] && s[1..] == body);
    SkipBlanksOver(blanks, s);
    DigitRunOf(digits, tail);
  }

  lemma SizeOfSigned(s: string, negative: bool, n: nat, tail: string)
    requires ReadSigned(s) == Some((negative, n, tail))
    ensures n >= SIZE_LIMIT ==> ReadSize(s) == None
    ensures n < SIZE_LIMIT && (!negative || n == 0) ==> ReadSize(s) == Some((n, tail))
    ensures 0 < n < SIZE_LIMIT && negative ==> ReadSize(s) == Some((SIZE_LIMIT - n, tail))
  {
  }

  lemma IntOfSigned(s: string, negative: bool, n: nat, tail: string)
    requires ReadSigned(s) == Some((negative, n, tail))
    ensures !negative ==> ReadInt(s) == if n < INT_LIMIT then Some((n, tail)) else None
    ensures negative ==> ReadInt(s) == if n <= INT_LIMIT then Some((-(n as int), tail)) else None
  {
  }

  /** A size_t that is out of range fails, and a minus sign wraps around. */
  lemma SizeRange(blanks: string, sign: string, digits: string, tail: string)
    requires forall i :: 0 <= i < |blanks| ==> IsBlank(blanks[i])
    requires sign in ["", "-", "+"] && digits != "" && AllDigits(digits) && !StartsWithDigit(tail)
    ensures var read, n := ReadSize(blanks + (sign + (digits + tail))), Value(digits);
      && (n >= SIZE_LIMIT ==> read == None)
      && (n < SIZE_LIMIT && (sign != "-" || n == 0) ==> read == Some((n, tail)))
      && (0 < n < SIZE_LIMIT && sign == "-" ==> read == Some((SIZE_LIMIT - n, tail)))
  {
    SignedRead(blanks, sign, digits, tail);
    SizeOfSigned(blanks + (sign + (digits + tail)), sign == "-", Value(digits), tail);
  }

  /** An int that is out of range fails. */
  lemma IntRange(blanks: string, sign: string, digits: string, tail: string)
    requires forall i :: 0 <= i < |blanks| ==> IsBlank(blanks[i])
    requires sign in ["", "-", "+"] && digits != "" && AllDigits(digits) && !StartsWithDigit(tail)
    ensures var read, n := ReadInt(blanks + (sign + (digits + tail))), Value(digits);
      && (sign != "-" ==> read == if n < INT_LIMIT then Some((n, tail)) else None)
      && (sign == "-" ==> read == if n <= INT_LIMIT then Some((-(n as int), tail)) else None)
  {
    SignedRead(blanks, sign, digits, tail);
    IntOfSigned(blanks + (sign + (digits + tail)), sign == "-", Value(digits), tail);
  }

  /** A printed size_t is read back from behind a blank. */
  lemma ReadSizePrinted(n: SizeT, tail: string)
    requires !StartsWithDigit(tail)
    ensures ReadSize([' '] + (Decimal(n) + tail)) == Some((n, tail))
  {
    SkipOneBlank(Decimal(n) + tail);
    ReadSignedPrinted(n, tail);
  }

  /** `buffer.resize(n)` followed by `stream.read(buffer, n)`: what the stream cannot
      supply stays zero. */
  function ReadBlock(s: string, n: nat): (r: (string, string))
    ensures |r.0| == n
  {
    if n <= |s| then (s[..n], s[n..])
    else (s + seq(n - |s|, _ => '\0'), "")
  }

  lemma ReadBlockExact(block: string, tail: string)
    ensures ReadBlock(block + tail, |block|) == (block, tail)
  {
  }
}
