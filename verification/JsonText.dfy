/** JSON text pieces: escaped strings and decimal numbers, printed and read. A
    character stands for one byte of the program's strings. */
module JsonText {

  const QUOTE: char := '"'
  const BACKSLASH: char := '\\'

  function HexDigit(n: nat): (c: char)
    requires n < 16
    ensures c != QUOTE
  {
    if n < 10 then '0' + n as char else 'a' + (n - 10) as char
  }

  predicate IsControl(c: char) {
    c as int < 0x20
  }

  /** `part` stands at position `a` of the text. */
  predicate At(text: string, a: nat, part: string) {
    a + |part| <= |text| && forall j :: 0 <= j < |part| ==> text[a + j] == part[j]
  }

  lemma AtSplit(text: string, a: nat, head: string, rest: string)
    requires At(text, a, head + rest)
    ensures At(text, a, head) && At(text, a + |head|, rest)
  {
    var whole := head + rest;
    assert forall j :: 0 <= j < |head| ==> whole[j] == head[j];
    assert forall j :: 0 <= j < |rest| ==> whole[|head| + j] == rest[j];
  }

  // ---- Escaping ----

  function EscapedChar(c: char): string {
    if c == QUOTE then [BACKSLASH, QUOTE]
    else if c == BACKSLASH then [BACKSLASH, BACKSLASH]
    else if c == '\n' then [BACKSLASH, 'n']
    else if c == '\r' then [BACKSLASH, 'r']
    else if c == '\t' then [BACKSLASH, 't']
    else if c as int == 0x08 then [BACKSLASH, 'b']
    else if c as int == 0x0C then [BACKSLASH, 'f']
    else if IsControl(c) then [BACKSLASH, 'u', '0', '0', HexDigit(c as int / 16), HexDigit(c as int % 16)]
    else [c]
  }

  /** Every character replaced by a text of its own. */
  function FlatMap(f: char -> string, s: string): string {
    if s == "" then "" else f(s[0]) + FlatMap(f, s[1..])
  }

  lemma {:induction false} FlatMapAppend(f: char -> string, s: string, c: char)
    ensures FlatMap(f, s + [c]) == FlatMap(f, s) + f(c)
  {
    if s == "" {
      assert FlatMap(f, ([c])[1..]) == "";
    } else {
      FlatMapAppend(f, s[1..], c);
      assert (s + [c])[1..] == s[1..] + [c];
      ConcatAssociates(f(s[0]), FlatMap(f, s[1..]), f(c));
    }
  }

  function Escaped(s: string): string {
    FlatMap(EscapedChar, s)
  }

  /** Every quote is preceded by a backslash. */
  ghost predicate QuotesEscaped(e: string) {
    forall i :: 0 <= i < |e| && e[i] == QUOTE ==> i > 0 && e[i - 1] == BACKSLASH
  }

  lemma {:induction false} EscapedQuotes(s: string)
    ensures QuotesEscaped(Escaped(s))
  {
    if s != "" {
      EscapedQuotes(s[1..]);
    }
  }

  /** An escaped text has no control characters, so no line breaks either. */
  lemma {:induction false} EscapedIsPrintable(s: string)
    ensures forall c :: c in Escaped(s) ==> c as int >= 0x20
  {
    if s != "" {
      EscapedIsPrintable(s[1..]);
      assert forall c :: c in EscapedChar(s[0]) ==> c as int >= 0x20;
      assert Escaped(s) == EscapedChar(s[0]) + Escaped(s[1..]);
    }
  }

  method EscapeJson(s: string) returns (r: string)
    ensures r == Escaped(s)
  {
    r := "";
    for i := 0 to |s|
      invariant r == Escaped(s[..i])
    {
      assert s[..i + 1] == s[..i] + [s[i]];
      FlatMapAppend(EscapedChar, s[..i], s[i]);
      r := r + EscapedChar(s[i]);
    }
    assert s[..|s|] == s;
  }

  // ---- Reading an escaped string ----

  function UnescapedChar(c: char): char {
    if c == 'n' then '\n' else if c == 'r' then '\r' else if c == 't' then '\t' else c
  }

  /** One step of reading: how many characters it consumes and what it adds. */
  datatype Token = Token(length: nat, output: string)

  /** An escaped code point is copied as it stands. */
  function TokenAt(text: string, p: nat): (t: Token)
    requires p < |text|
    ensures 1 <= t.length
  {
    if text[p] == BACKSLASH && p + 1 < |text| then
      if text[p + 1] == 'u' && p + 5 < |text| then Token(6, text[p..p + 6])
      else Token(2, [UnescapedChar(text[p + 1])])
    else Token(1, [text[p]])
  }

  /** The text of the string whose body starts at `p`, up to the closing quote. */
  function ReadString(text: string, p: nat): string
    decreases |text| - p
  {
    if p >= |text| || text[p] == QUOTE then ""
    else
      var t := TokenAt(text, p);
      t.output + ReadString(text, p + t.length)
  }

  lemma ConcatAssociates(a: string, b: string, c: string)
    ensures (a + b) + c == a + (b + c)
  {
  }

  method ScanString(text: string, start: nat) returns (val: string)
    ensures val == ReadString(text, start)
  {
    var pos := start;
    val := "";
    while pos < |text| && text[pos] != QUOTE
      invariant val + ReadString(text, pos) == ReadString(text, start)
      decreases |text| - pos
    {
      var t := TokenAt(text, pos);
      ConcatAssociates(val, t.output, ReadString(text, pos + t.length));
      val := val + t.output;
      pos := pos + t.length;
    }
  }

  /** Control characters that survive printing and reading. */
  predicate Survives(c: char) {
    !IsControl(c) || c == '\n' || c == '\r' || c == '\t'
  }

  function ReadBackChar(c: char): (r: string)
    ensures r == [c] <==> Survives(c)
    ensures r != "" && (r[0] == c <==> Survives(c))
  {
    if Survives(c) then [c]
    else if c as int == 0x08 then "b"
    else if c as int == 0x0C then "f"
    else EscapedChar(c)
  }

  /** What comes back when `s` is printed and read. */
  function ReadBack(s: string): string {
    FlatMap(ReadBackChar, s)
  }

  /** Where the piece `f(c)` stands, it is read as `g(c)`. */
  ghost predicate PieceReads(text: string, p: nat, f: char -> string, g: char -> string, c: char) {
    At(text, p, f(c)) && p + |f(c)| < |text| ==>
      text[p] != QUOTE && TokenAt(text, p) == Token(|f(c)|, g(c))
  }

  lemma OnePiece(text: string, p: nat, f: char -> string, g: char -> string, c: char, rest: string)
    requires PieceReads(text, p, f, g, c)
    requires At(text, p, f(c) + rest) && p + |f(c) + rest| < |text|
    ensures At(text, p + |f(c)|, rest)
    ensures ReadString(text, p) == g(c) + ReadString(text, p + |f(c)|)
  {
    AtSplit(text, p, f(c), rest);
  }

  /** If every piece reads as it should, so does the text made of pieces. */
  lemma {:induction false} PiecesReadBack(text: string, p: nat, f: char -> string, g: char -> string, s: string)
    requires forall c, q: nat :: PieceReads(text, q, f, g, c)
    requires At(text, p, FlatMap(f, s)) && p + |FlatMap(f, s)| < |text|
    requires text[p + |FlatMap(f, s)|] == QUOTE
    ensures ReadString(text, p) == FlatMap(g, s)
    decreases |s|
  {
    if s != "" {
      var rest := FlatMap(f, s[1..]);
      assert PieceReads(text, p, f, g, s[0]);
      assert FlatMap(f, s) == f(s[0]) + rest;
      OnePiece(text, p, f, g, s[0], rest);
      PiecesReadBack(text, p + |f(s[0])|, f, g, s[1..]);
    }
  }

  lemma ReadsBack(text: string, p: nat, s: string)
    requires At(text, p, Escaped(s)) && p + |Escaped(s)| < |text|
    requires text[p + |Escaped(s)|] == QUOTE
    ensures ReadString(text, p) == ReadBack(s)
  {
    forall c, q: nat ensures PieceReads(text, q, EscapedChar, ReadBackChar, c) {
      if At(text, q, EscapedChar(c)) && q + |EscapedChar(c)| < |text| {
        ReadsBackChar(text, q, c);
      }
    }
    PiecesReadBack(text, p, EscapedChar, ReadBackChar, s);
  }

  lemma ReadsBackChar(text: string, p: nat, c: char)
    requires At(text, p, EscapedChar(c)) && p + |EscapedChar(c)| < |text|
    ensures text[p] != QUOTE && TokenAt(text, p) == Token(|EscapedChar(c)|, ReadBackChar(c))
  {
    var head := EscapedChar(c);
    assert text[p + 0] == head[0];
    if |head| > 1 {
      assert text[p + 1] == head[1];
    }
    if |head| == 6 {
      assert text[p..p + 6] == head;
    }
  }

  /** A string survives if and only if it has no control character other than
      newline, carriage return and tab. */
  lemma ReadBackIff(s: string)
    ensures ReadBack(s) == s <==> forall c :: c in s ==> c as int >= 0x20 || c == '\n' || c == '\r' || c == '\t'
  {
    AllSurviveIff(s);
  }

  lemma {:induction false} AllSurviveIff(s: string)
    ensures ReadBack(s) == s <==> forall c :: c in s ==> Survives(c)
  {
    if s != "" {
      AllSurviveIff(s[1..]);
      assert s == [s[0]] + s[1..];
      assert ReadBack(s)[0] == ReadBackChar(s[0])[0];
      if Survives(s[0]) {
        assert ReadBack(s)[1..] == ReadBack(s[1..]);
      }
    }
  }

  // ---- Decimal numbers ----

  predicate IsDigit(c: char) {
    '0' <= c <= '9'
  }

  predicate AllDigits(s: string) {
    forall c :: c in s ==> IsDigit(c)
  }

  function DecimalText(n: nat): (s: string)
    ensures s != "" && AllDigits(s)
  {
    var last := ['0' + (n % 10) as char];
    if n < 10 then last else DecimalText(n / 10) + last
  }

  function DecimalValue(s: string): nat
    requires AllDigits(s)
  {
    if s == "" then 0
    else
      var n := |s| - 1;
      assert forall c :: c in s[..n] ==> c in s;
      assert s[n] in s;
      10 * DecimalValue(s[..n]) + (s[n] as int - '0' as int)
  }

  lemma {:induction false} DecimalRoundTrip(n: nat)
    ensures DecimalValue(DecimalText(n)) == n
  {
    if n >= 10 {
      DecimalRoundTrip(n / 10);
      var s := DecimalText(n);
      assert s[..|s| - 1] == DecimalText(n / 10);
    }
  }

  function IntText(n: int): (s: string)
    ensures s != ""
  {
    if n < 0 then "-" + DecimalText(-n) else DecimalText(n)
  }

  predicate IsSpace(c: char) {
    c == ' ' || 0x09 <= c as int <= 0x0D
  }

  function SkipSpace(s: string): string {
    if s != "" && IsSpace(s[0]) then SkipSpace(s[1..]) else s
  }

  function LeadingDigits(s: string): (k: nat)
    ensures k <= |s| && AllDigits(s[..k])
    ensures k < |s| ==> !IsDigit(s[k])
  {
    if s == "" || !IsDigit(s[0]) then 0
    else
      var k := LeadingDigits(s[1..]);
      assert s[..1 + k] == [s[0]] + s[1..][..k];
      1 + k
  }

  lemma {:induction false} AllDigitsLead(s: string)
    requires AllDigits(s)
    ensures LeadingDigits(s) == |s|
  {
    if s != "" {
      assert s[0] in s && forall c :: c in s[1..] ==> c in s;
      AllDigitsLead(s[1..]);
    }
  }

  /** Sign and magnitude of the number at the front of a text. */
  datatype Numeral = NotANumber | Numeral(negative: bool, magnitude: nat)

  function ParseNumeral(text: string): Numeral {
    var t := SkipSpace(text);
    var negative := t != "" && t[0] == '-';
    var digits := if negative || (t != "" && t[0] == '+') then t[1..] else t;
    var k := LeadingDigits(digits);
    if k == 0 then NotANumber else Numeral(negative, DecimalValue(digits[..k]))
  }

  lemma NumeralOfDigits(s: string)
    requires s != "" && AllDigits(s)
    ensures ParseNumeral(s) == Numeral(false, DecimalValue(s))
    ensures ParseNumeral("-" + s) == Numeral(true, DecimalValue(s))
  {
    AllDigitsLead(s);
    assert s[0] in s && s[..|s|] == s;
    var t := "-" + s;
    assert t[1..] == s && SkipSpace(t) == t && SkipSpace(s) == s;
  }

  /** Printing and reading an integer gives it back. */
  lemma IntRoundTrip(n: int)
    ensures ParseNumeral(IntText(n)) == Numeral(n < 0, if n < 0 then -n else n)
  {
    var m := if n < 0 then -n else n;
    DecimalRoundTrip(m);
    NumeralOfDigits(DecimalText(m));
  }
}
