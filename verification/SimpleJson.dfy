/** The control protocol's JSON builder and its field readers. */
module SimpleJson {
  import opened Base
  import opened JsonText
  import opened JsonSearch

  const INT64_MAX: int := 0x7FFF_FFFF_FFFF_FFFF
  const INT64_MIN: int := -0x8000_0000_0000_0000

  function Quoted(s: string): string {
    [QUOTE] + Escaped(s) + [QUOTE]
  }

  function FlagText(b: bool): string {
    if b then "true" else "false"
  }

  class SimpleJson {
    var pairs: seq<Pair>

    constructor ()
      ensures pairs == []
    {
      pairs := [];
    }

    method SetString(key: string, value: string)
      modifies this
      ensures pairs == old(pairs) + [Pair(key, Quoted(value))]
    {
      var body := EscapeJson(value);
      pairs := pairs + [Pair(key, [QUOTE] + body + [QUOTE])];
    }

    method SetRaw(key: string, raw: string)
      modifies this
      ensures pairs == old(pairs) + [Pair(key, raw)]
    {
      pairs := pairs + [Pair(key, raw)];
    }

    method SetInt(key: string, value: int)
      modifies this
      ensures pairs == old(pairs) + [Pair(key, IntText(value))]
    {
      pairs := pairs + [Pair(key, IntText(value))];
    }

    method SetBool(key: string, value: bool)
      modifies this
      ensures pairs == old(pairs) + [Pair(key, FlagText(value))]
    {
      pairs := pairs + [Pair(key, FlagText(value))];
    }

    method Str() returns (out: string)
      ensures out == Rendered(pairs)
    {
      out := "{";
      for i := 0 to |pairs|
        invariant out == Opened(pairs[..i])
      {
        assert pairs[..i + 1][..i] == pairs[..i];
        if i > 0 {
          out := out + ",";
        }
        out := out + Printed(pairs[i]);
      }
      assert pairs[..|pairs|] == pairs;
      out := out + "}";
    }
  }

  // ---- Reading fields ----

  function StringField(json: string, key: string): string {
    match Find(json, StringPattern(key))
    case None => ""
    case Some(k) => ReadString(json, k + |StringPattern(key)|)
  }

  method GetString(json: string, key: string) returns (val: string)
    ensures val == StringField(json, key)
  {
    var pattern := StringPattern(key);
    var pos := Find(json, pattern);
    val := "";
    if pos.Some? {
      val := ScanString(json, pos.value + |pattern|);
    }
  }

  predicate IsBlank(c: char) {
    c == ' ' || c == '\t'
  }

  predicate EndsRaw(c: char) {
    IsSeparator(c) || IsBlank(c) || c == '\n' || c == '\r'
  }

  /** Where the raw value starts at or after `p`, behind blanks. */
  function SkipBlanks(text: string, p: nat): (q: nat)
    requires p <= |text|
    ensures p <= q <= |text|
    decreases |text| - p
  {
    if p < |text| && IsBlank(text[p]) then SkipBlanks(text, p + 1) else p
  }

  function RawEnd(text: string, p: nat): (q: nat)
    requires p <= |text|
    ensures p <= q <= |text| && (forall i :: p <= i < q ==> !EndsRaw(text[i])) && (q < |text| ==> EndsRaw(text[q]))
    decreases |text| - p
  {
    if p < |text| && !EndsRaw(text[p]) then RawEnd(text, p + 1) else p
  }

  function RawValueAt(text: string, p: nat): string
    requires p <= |text|
  {
    var q := SkipBlanks(text, p);
    if q == |text| || text[q] == QUOTE then "" else text[q..RawEnd(text, q)]
  }

  function RawField(json: string, key: string): string {
    match Find(json, Pattern(key))
    case None => ""
    case Some(k) => RawValueAt(json, k + |Pattern(key)|)
  }

  method GetRawValue(json: string, key: string) returns (raw: string)
    ensures raw == RawField(json, key)
  {
    var found := Find(json, Pattern(key));
    if found.None? {
      return "";
    }
    raw := ScanRawValue(json, found.value + |Pattern(key)|);
  }

  method ScanRawValue(json: string, start: nat) returns (raw: string)
    requires start <= |json|
    ensures raw == RawValueAt(json, start)
  {
    var pos := start;
    while pos < |json| && IsBlank(json[pos])
      invariant start <= pos <= |json| && SkipBlanks(json, pos) == SkipBlanks(json, start)
    {
      pos := pos + 1;
    }
    if pos == |json| || json[pos] == QUOTE {
      return "";
    }
    var end := pos;
    while end < |json| && !EndsRaw(json[end])
      invariant pos <= end <= |json| && RawEnd(json, end) == RawEnd(json, pos)
    {
      end := end + 1;
    }
    raw := json[pos..end];
  }

  function IntOr(raw: string, default: int): int {
    match ParseNumeral(raw)
    case NotANumber => default
    case Numeral(negative, m) =>
      var n: int := if negative then -(m as int) else m;
      if INT64_MIN <= n <= INT64_MAX then n else default
  }

  /** An unsigned reading negates a signed numeral modulo 2^64. */
  function UintOr(raw: string, default: uint64): uint64 {
    match ParseNumeral(raw)
    case NotANumber => default
    case Numeral(negative, m) =>
      if m >= UINT64_SIZE then default else if negative then (UINT64_SIZE - m) % UINT64_SIZE else m
  }

  method GetInt(json: string, key: string, default: int) returns (n: int)
    ensures n == if RawField(json, key) == "" then default else IntOr(RawField(json, key), default)
  {
    var raw := GetRawValue(json, key);
    n := if raw == "" then default else IntOr(raw, default);
  }

  method GetUint(json: string, key: string, default: uint64) returns (n: uint64)
    ensures n == if RawField(json, key) == "" then default else UintOr(RawField(json, key), default)
  {
    var raw := GetRawValue(json, key);
    n := if raw == "" then default else UintOr(raw, default);
  }

  method GetBool(json: string, key: string, default: bool) returns (b: bool)
    ensures b == if RawField(json, key) == "" then default else RawField(json, key) == "true"
  {
    var raw := GetRawValue(json, key);
    b := if raw == "" then default else raw == "true";
  }

  /** Accepts exactly the non-empty digit strings below 2^64. */
  method ParseUint64DecimalString(json: string, key: string) returns (ok: bool, value: uint64)
    ensures var text := StringField(json, key);
            ok <==> text != "" && AllDigits(text) && DecimalValue(text) < UINT64_SIZE
    ensures value == if ok then DecimalValue(StringField(json, key)) else 0
  {
    var text := GetString(json, key);
    if text == "" {
      return false, 0;
    }
    for i := 0 to |text|
      invariant AllDigits(text[..i])
    {
      if !IsDigit(text[i]) {
        assert text[i] in text;
        return false, 0;
      }
      assert text[..i + 1] == text[..i] + [text[i]];
    }
    assert text[..|text|] == text;
    NumeralOfDigits(text);
    var parsed := ParseNumeral(text);
    ok := parsed.magnitude < UINT64_SIZE;
    value := if ok then parsed.magnitude else 0;
  }

  // ---- Round trips ----

  lemma QuotedIsQuoted(s: string)
    ensures IsQuoted(Quoted(s))
  {
    var raw, e := Quoted(s), Escaped(s);
    EscapedQuotes(s);
    assert forall i :: 0 < i < |raw| - 1 ==> raw[i] == e[i - 1];
  }

  /** A string field reads back exactly if and only if it has no control
      character other than newline, carriage return and tab. */
  lemma StringFieldRoundTrip(ps: seq<Pair>, i: nat, s: string)
    requires IsFlat(ps) && DistinctKeys(ps) && i < |ps| && ps[i].raw == Quoted(s)
    ensures StringField(Rendered(ps), ps[i].key) == s <==>
            forall c :: c in s ==> c as int >= 0x20 || c == '\n' || c == '\r' || c == '\t'
  {
    StringFieldReadsBack(ps, i, s);
    ReadBackIff(s);
  }

  /** Character by character, what a string field reads back as. */
  lemma StringFieldReadsBack(ps: seq<Pair>, i: nat, s: string)
    requires IsFlat(ps) && DistinctKeys(ps) && i < |ps| && ps[i].raw == Quoted(s)
    ensures StringField(Rendered(ps), ps[i].key) == ReadBack(s)
  {
    QuotedIsQuoted(s);
    FindsStringField(ps, i);
    ValueAt(ps, i);
    var p := Start(ps, i) + |Pattern(ps[i].key)|;
    QuotedReadsBack(Rendered(ps), p, ps[i].raw, s);
    FoundString(Rendered(ps), ps[i].key, Start(ps, i), ReadBack(s));
  }

  lemma FoundString(json: string, key: string, k: nat, val: string)
    requires Find(json, StringPattern(key)) == Some(k)
    requires val == ReadString(json, k + |Pattern(key)| + 1)
    ensures StringField(json, key) == val
  {
  }

  lemma QuotedReadsBack(text: string, p: nat, raw: string, s: string)
    requires raw == Quoted(s) && At(text, p, raw)
    ensures ReadString(text, p + 1) == ReadBack(s)
  {
    var body := Escaped(s);
    assert raw == [QUOTE] + (body + [QUOTE]);
    AtSplit(text, p, [QUOTE], body + [QUOTE]);
    AtSplit(text, p + 1, body, [QUOTE]);
    assert text[p + 1 + |body| + 0] == [QUOTE][0];
    ReadsBack(text, p + 1, s);
  }

  /** The value of field `i`, and the separator behind it. */
  lemma ValueAt(ps: seq<Pair>, i: nat)
    requires i < |ps|
    ensures var text, raw := Rendered(ps), ps[i].raw;
            var p := Start(ps, i) + |Pattern(ps[i].key)|;
            At(text, p, raw) && p + |raw| < |text| && IsSeparator(text[p + |raw|])
  {
    FieldAt(ps, i);
    PrintedParts(Rendered(ps), Start(ps, i), ps[i]);
    assert Printed(ps[i]) == Pattern(ps[i].key) + ps[i].raw;
  }

  /** A raw value that holds nothing that would end it. */
  predicate IsToken(raw: string) {
    raw != "" && forall c :: c in raw ==> c != QUOTE && !EndsRaw(c)
  }

  lemma RawFieldRoundTrip(ps: seq<Pair>, i: nat)
    requires IsFlat(ps) && DistinctKeys(ps) && i < |ps| && IsToken(ps[i].raw)
    ensures RawField(Rendered(ps), ps[i].key) == ps[i].raw
  {
    RawFieldIsOwn(ps, i);
    ValueAt(ps, i);
    TokenAtPosition(Rendered(ps), Start(ps, i) + |Pattern(ps[i].key)|, ps[i].raw);
  }

  lemma RawFieldIsOwn(ps: seq<Pair>, i: nat)
    requires IsFlat(ps) && DistinctKeys(ps) && i < |ps|
    ensures Start(ps, i) + |Pattern(ps[i].key)| <= |Rendered(ps)|
    ensures RawField(Rendered(ps), ps[i].key) == RawValueAt(Rendered(ps), Start(ps, i) + |Pattern(ps[i].key)|)
  {
    FindsOwnField(ps, i);
  }

  lemma TokenAtPosition(text: string, p: nat, raw: string)
    requires At(text, p, raw) && p + |raw| < |text| && EndsRaw(text[p + |raw|]) && IsToken(raw)
    ensures RawValueAt(text, p) == raw
  {
    assert text[p + 0] == raw[0] && raw[0] in raw;
    assert text[p..p + |raw|] == raw;
    RawEndsAfter(text, p, p + |raw|);
  }

  lemma {:induction false} RawEndsAfter(text: string, p: nat, q: nat)
    requires p <= q < |text| && EndsRaw(text[q])
    requires forall c :: c in text[p..q] ==> !EndsRaw(c)
    ensures RawEnd(text, p) == q
    decreases q - p
  {
    if p < q {
      assert text[p] == text[p..q][0];
      assert text[p + 1..q] == text[p..q][1..];
      RawEndsAfter(text, p + 1, q);
    }
  }

  lemma IntTextIsToken(n: int)
    ensures IsToken(IntText(n)) && IsPlain(IntText(n))
  {
    var digits := DecimalText(if n < 0 then -n else n);
    assert forall c :: c in IntText(n) ==> c in digits || c == '-';
  }

  /** Integers read back exactly where they fit, signed and unsigned; unsigned
      reading takes a negative number modulo 2^64. Others give the default. */
  lemma IntFieldRoundTrip(ps: seq<Pair>, i: nat, n: int)
    requires IsFlat(ps) && DistinctKeys(ps) && i < |ps| && ps[i].raw == IntText(n)
    ensures var raw := RawField(Rendered(ps), ps[i].key);
            && raw != ""
            && (forall default: int :: IntOr(raw, default) == if INT64_MIN <= n <= INT64_MAX then n else default)
            && (forall default: uint64 :: UintOr(raw, default) == if 0 <= n < UINT64_SIZE then n
                                                          else if -UINT64_SIZE < n < 0 then n + UINT64_SIZE
                                                          else default)
  {
    IntTextIsToken(n);
    RawFieldRoundTrip(ps, i);
    forall default: int
      ensures IntOr(IntText(n), default) == if INT64_MIN <= n <= INT64_MAX then n else default
    {
      NumberReadsBack(n, default, 0);
    }
    forall default: uint64
      ensures UintOr(IntText(n), default) == if 0 <= n < UINT64_SIZE then n
                                             else if -UINT64_SIZE < n < 0 then n + UINT64_SIZE
                                             else default
    {
      NumberReadsBack(n, 0, default);
    }
  }

  lemma NumberReadsBack(n: int, default: int, other: uint64)
    ensures IntOr(IntText(n), default) == if INT64_MIN <= n <= INT64_MAX then n else default
    ensures UintOr(IntText(n), other) == if 0 <= n < UINT64_SIZE then n
                                         else if -UINT64_SIZE < n < 0 then n + UINT64_SIZE
                                         else other
  {
    IntRoundTrip(n);
  }

  /** A flag reads back: its text is there, and it is "true" for true only. */
  lemma BoolFieldRoundTrip(ps: seq<Pair>, i: nat, b: bool)
    requires IsFlat(ps) && DistinctKeys(ps) && i < |ps| && ps[i].raw == FlagText(b)
    ensures var raw := RawField(Rendered(ps), ps[i].key);
            raw != "" && (raw == "true" <==> b) && (raw == "false" <==> !b)
  {
    RawFieldRoundTrip(ps, i);
  }

  /** A field that nobody set reads as absent, so the reader gives its default. */
  lemma AbsentFieldIsEmpty(ps: seq<Pair>, key: string)
    requires IsFlat(ps) && IsKey(key) && forall f :: f in ps ==> f.key != key
    ensures RawField(Rendered(ps), key) == "" && StringField(Rendered(ps), key) == ""
  {
    AbsentKeyNotFound(ps, key);
    var r := Find(Rendered(ps), StringPattern(key));
    if r.Some? {
      StringPatternParts(Rendered(ps), r.value, key);
    }
  }

  /** What is rendered from fields without line breaks is a single line, as the
      framing of the connection needs it. */
  lemma {:induction false} OpenedIsOneLine(ps: seq<Pair>)
    requires forall f :: f in ps ==> '\n' !in f.key && '\n' !in f.raw
    ensures '\n' !in Opened(ps) && '\n' !in Rendered(ps)
  {
    if ps != [] {
      OpenedIsOneLine(ps[..|ps| - 1]);
      assert ps[|ps| - 1] in ps;
    }
  }

  /** Whatever strings, numbers and flags are set, the message is one line. */
  lemma SetFieldsAreOneLine(ps: seq<Pair>)
    requires forall f :: f in ps ==> IsKey(f.key)
    requires forall f :: f in ps ==>
               || (exists s :: f.raw == Quoted(s))
               || (exists n :: f.raw == IntText(n))
               || (exists b :: f.raw == FlagText(b))
    ensures '\n' !in Rendered(ps)
  {
    forall f | f in ps ensures '\n' !in f.key && '\n' !in f.raw {
      if s :| f.raw == Quoted(s) {
        EscapedIsPrintable(s);
      } else if n :| f.raw == IntText(n) {
        IntTextIsToken(n);
      }
    }
    OpenedIsOneLine(ps);
  }

  /** Two fields are printed in order, with a comma between them. */
  lemma TwoFields(a: Pair, b: Pair)
    ensures Rendered([a, b]) == "{\"" + a.key + "\":" + a.raw + ",\"" + b.key + "\":" + b.raw + "}"
  {
    assert [a, b][..1] == [a] && [a][..0] == [];
    assert Opened([a]) == "{" + Printed(a);
    assert Opened([a, b]) == Opened([a]) + "," + Printed(b);
  }

  /** A 64-bit number sent as a decimal string reads back exactly. */
  lemma DecimalStringRoundTrip(ps: seq<Pair>, i: nat, n: uint64)
    requires IsFlat(ps) && DistinctKeys(ps) && i < |ps| && ps[i].raw == Quoted(DecimalText(n))
    ensures var text := StringField(Rendered(ps), ps[i].key);
            text == DecimalText(n) && text != "" && AllDigits(text) && DecimalValue(text) == n
  {
    StringFieldRoundTrip(ps, i, DecimalText(n));
    DecimalRoundTrip(n);
  }

  /** The fields this builder sets for strings, integers and booleans are the
      ones that a search cannot confuse. */
  lemma SetFieldsAreFlat(ps: seq<Pair>)
    requires forall f :: f in ps ==> IsKey(f.key)
    requires forall f :: f in ps ==>
               || (exists s :: f.raw == Quoted(s))
               || (exists n :: f.raw == IntText(n))
               || (exists b :: f.raw == FlagText(b))
    ensures IsFlat(ps)
  {
    forall f | f in ps ensures IsPlain(f.raw) || IsQuoted(f.raw) {
      if s :| f.raw == Quoted(s) {
        QuotedIsQuoted(s);
      } else if n :| f.raw == IntText(n) {
        IntTextIsToken(n);
      }
    }
  }
}
