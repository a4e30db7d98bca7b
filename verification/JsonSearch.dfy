/** A rendered flat object, and where a key pattern can be found in it. */
module JsonSearch {
  import opened Base
  import opened JsonText

  /** A key and its value as it is printed. */
  datatype Pair = Pair(key: string, raw: string)

  function Printed(f: Pair): (r: string)
    ensures |r| == |f.key| + 3 + |f.raw|
  {
    [QUOTE] + f.key + [QUOTE, ':'] + f.raw
  }

  function Opened(ps: seq<Pair>): string {
    if ps == [] then "{"
    else
      var n := |ps| - 1;
      Opened(ps[..n]) + (if n > 0 then "," else "") + Printed(ps[n])
  }

  function Rendered(ps: seq<Pair>): string {
    Opened(ps) + "}"
  }

  function Pattern(key: string): (r: string)
    ensures |r| == |key| + 3
  {
    [QUOTE] + key + [QUOTE, ':']
  }

  function StringPattern(key: string): (r: string)
    ensures |r| == |key| + 4
  {
    Pattern(key) + [QUOTE]
  }

  /** The first match at or after `i`. */
  function FindFrom(text: string, pattern: string, i: nat): (r: Option<nat>)
    ensures r.Some? ==> i <= r.value && At(text, r.value, pattern)
                        && forall p :: i <= p < r.value ==> !At(text, p, pattern)
    ensures r.None? ==> forall p :: i <= p ==> !At(text, p, pattern)
    decreases |text| - i
  {
    if i + |pattern| > |text| then None
    else if At(text, i, pattern) then Some(i)
    else FindFrom(text, pattern, i + 1)
  }

  function Find(text: string, pattern: string): Option<nat> {
    FindFrom(text, pattern, 0)
  }

  // ---- Which values cannot hide a key ----

  predicate IsKeyChar(c: char) {
    'a' <= c <= 'z' || 'A' <= c <= 'Z' || '0' <= c <= '9'
  }

  predicate IsKey(key: string) {
    forall c :: c in key ==> IsKeyChar(c)
  }

  predicate IsPlain(raw: string) {
    QUOTE !in raw
  }

  /** A quoted text in which every inner quote follows a backslash. */
  predicate IsQuoted(raw: string) {
    && |raw| >= 2 && raw[0] == raw[|raw| - 1] == QUOTE
    && forall i :: 0 < i < |raw| - 1 && raw[i] == QUOTE ==> raw[i - 1] == BACKSLASH
  }

  predicate IsFlat(ps: seq<Pair>) {
    forall f :: f in ps ==> IsKey(f.key) && (IsPlain(f.raw) || IsQuoted(f.raw))
  }

  ghost predicate DistinctKeys(ps: seq<Pair>) {
    forall i, j :: 0 <= i < j < |ps| ==> ps[i].key != ps[j].key
  }

  predicate IsSeparator(c: char) {
    c == ',' || c == '}'
  }

  /** The parts of a key pattern, wherever it is found. */
  lemma PatternParts(text: string, p: nat, key: string)
    requires At(text, p, Pattern(key)) && IsKey(key)
    ensures var q := p + 1 + |key|;
            && q + 1 < |text| && text[p] == text[q] == QUOTE && text[q + 1] == ':'
            && forall j :: p < j < q ==> text[j] == key[j - p - 1] && IsKeyChar(text[j])
  {
    var pattern := Pattern(key);
    var q := p + 1 + |key|;
    assert pattern[0] == QUOTE && pattern[1 + |key|] == QUOTE && pattern[2 + |key|] == ':';
    forall j | p < j < q ensures text[j] == key[j - p - 1] && IsKeyChar(text[j]) {
      assert pattern[j - p] == key[j - p - 1];
      assert key[j - p - 1] in key;
    }
  }

  /** No key pattern starts in a quoted value: its second quote would have to be
      an escaped one, or be followed by a colon. */
  lemma QuotedHidesNoKey(text: string, a: nat, raw: string, key: string, p: nat)
    requires At(text, a, raw) && IsQuoted(raw) && IsKey(key)
    requires a + |raw| < |text| && IsSeparator(text[a + |raw|])
    requires a <= p < a + |raw|
    ensures !At(text, p, Pattern(key))
  {
    var q := p + 1 + |key|;
    var last := a + |raw| - 1;
    assert text[last] == raw[last - a] == QUOTE;
    if a < q < last && text[q] == QUOTE {
      InnerQuoteIsEscaped(text, a, raw, q);
    }
    if At(text, p, Pattern(key)) {
      PatternParts(text, p, key);
    }
  }

  lemma InnerQuoteIsEscaped(text: string, a: nat, raw: string, q: nat)
    requires At(text, a, raw) && IsQuoted(raw)
    requires a < q < a + |raw| - 1 && text[q] == QUOTE
    ensures text[q - 1] == BACKSLASH
  {
    assert raw[q - a] == text[q] && raw[q - 1 - a] == text[q - 1];
  }

  lemma PlainHidesNoKey(text: string, a: nat, raw: string, key: string, p: nat)
    requires At(text, a, raw) && IsPlain(raw) && IsKey(key)
    requires a <= p < a + |raw|
    ensures !At(text, p, Pattern(key))
  {
    assert raw[p - a] in raw;
    if At(text, p, Pattern(key)) {
      PatternParts(text, p, key);
    }
  }

  /** Inside `"key":` a pattern starts only at the first quote, for that key. */
  lemma KeyMatchesItself(text: string, a: nat, own: string, key: string, p: nat)
    requires At(text, a, Pattern(own)) && IsKey(own) && IsKey(key)
    requires a <= p < a + |Pattern(own)|
    ensures At(text, p, Pattern(key)) <==> p == a && key == own
  {
    PatternParts(text, a, own);
    if At(text, p, Pattern(key)) {
      PatternParts(text, p, key);
      var q, r := a + 1 + |own|, p + 1 + |key|;
      if p == a && q == r {
        assert forall j :: 0 <= j < |key| ==> key[j] == text[a + 1 + j] == own[j];
        assert key == own;
      }
    }
  }

  lemma PrintedParts(text: string, a: nat, f: Pair)
    requires At(text, a, Printed(f))
    ensures At(text, a, Pattern(f.key)) && At(text, a + |Pattern(f.key)|, f.raw)
  {
    var k := |Pattern(f.key)|;
    assert Printed(f) == Pattern(f.key) + f.raw;
    assert forall j :: 0 <= j < k ==> Printed(f)[j] == Pattern(f.key)[j];
    assert forall j :: 0 <= j < |f.raw| ==> Printed(f)[k + j] == f.raw[j];
  }

  /** In a whole printed field the pattern is found at its start, and only for
      its own key. */
  lemma FieldMatchesItself(text: string, a: nat, f: Pair, key: string, p: nat)
    requires At(text, a, Printed(f)) && a + |Printed(f)| < |text| && IsSeparator(text[a + |Printed(f)|])
    requires IsFlat([f]) && IsKey(key)
    requires a <= p < a + |Printed(f)|
    ensures At(text, p, Pattern(key)) <==> p == a && key == f.key
  {
    assert f in [f];
    PrintedParts(text, a, f);
    var v := a + |Pattern(f.key)|;
    if p < v {
      KeyMatchesItself(text, a, f.key, key, p);
    } else if IsPlain(f.raw) {
      PlainHidesNoKey(text, v, f.raw, key, p);
    } else {
      QuotedHidesNoKey(text, v, f.raw, key, p);
    }
  }

  // ---- The whole object ----

  function Start(ps: seq<Pair>, i: nat): nat
    requires i < |ps|
  {
    |Opened(ps[..i])| + if i > 0 then 1 else 0
  }

  lemma {:induction false} OpenedPrefix(ps: seq<Pair>, i: nat)
    requires i <= |ps|
    ensures |Opened(ps[..i])| <= |Opened(ps)| && At(Opened(ps), 0, Opened(ps[..i]))
  {
    if i == |ps| {
      assert ps[..i] == ps;
    } else {
      var n := |ps| - 1;
      OpenedPrefix(ps[..n], i);
      assert ps[..n][..i] == ps[..i];
    }
  }

  lemma OpenedNext(ps: seq<Pair>, i: nat)
    requires i < |ps|
    ensures var o := Opened(ps[..i + 1]);
            && At(o, Start(ps, i), Printed(ps[i])) && Start(ps, i) + |Printed(ps[i])| == |o|
            && (i > 0 ==> o[|Opened(ps[..i])|] == ',')
  {
    assert ps[..i + 1][..i] == ps[..i];
  }

  /** Where field `i` stands, and that a separator follows it. */
  lemma FieldAt(ps: seq<Pair>, i: nat)
    requires i < |ps|
    ensures var text := Rendered(ps);
            var e := Start(ps, i) + |Printed(ps[i])|;
            && At(text, Start(ps, i), Printed(ps[i])) && e == |Opened(ps[..i + 1])| < |text| && IsSeparator(text[e])
            && (i > 0 ==> text[|Opened(ps[..i])|] == ',')
  {
    OpenedNext(ps, i);
    OpenedPrefix(ps, i + 1);
    if i + 1 < |ps| {
      OpenedNext(ps, i + 1);
      OpenedPrefix(ps, i + 2);
    } else {
      assert ps[..i + 1] == ps;
    }
  }

  lemma RenderedStart(ps: seq<Pair>)
    ensures Rendered(ps)[0] == '{' && |Opened(ps[..0])| == 1
  {
    OpenedPrefix(ps, 0);
    var first := Opened(ps[..0]);
    assert first[0] == '{';
  }

  lemma {:induction false} MatchIsInField(ps: seq<Pair>, i: nat, key: string, p: nat)
    requires IsFlat(ps) && IsKey(key) && i <= |ps| && p < |Opened(ps[..i])|
    requires At(Rendered(ps), p, Pattern(key))
    ensures exists j :: 0 <= j < i && p == Start(ps, j) && ps[j].key == key
    decreases i
  {
    if i == 0 {
      NoMatchAtBrace(ps, key);
    } else if p < |Opened(ps[..i - 1])| {
      MatchIsInField(ps, i - 1, key, p);
    } else {
      MatchInLastField(ps, i - 1, key, p);
    }
  }

  lemma NoMatchAtBrace(ps: seq<Pair>, key: string)
    requires IsKey(key)
    ensures |Opened(ps[..0])| == 1 && !At(Rendered(ps), 0, Pattern(key))
  {
    RenderedStart(ps);
    if At(Rendered(ps), 0, Pattern(key)) {
      PatternParts(Rendered(ps), 0, key);
    }
  }

  lemma MatchInLastField(ps: seq<Pair>, i: nat, key: string, p: nat)
    requires IsFlat(ps) && IsKey(key) && i < |ps| && |Opened(ps[..i])| <= p < |Opened(ps[..i + 1])|
    requires At(Rendered(ps), p, Pattern(key))
    ensures p == Start(ps, i) && ps[i].key == key
  {
    FieldAt(ps, i);
    PatternParts(Rendered(ps), p, key);
    assert ps[i] in ps;
    FieldMatchesItself(Rendered(ps), Start(ps, i), ps[i], key, p);
  }

  /** A key pattern is found exactly at the start of the fields with that key,
      never inside or across another field. */
  lemma MatchIffOwnField(ps: seq<Pair>, key: string, p: nat)
    requires IsFlat(ps) && IsKey(key)
    ensures At(Rendered(ps), p, Pattern(key)) <==>
            exists j :: 0 <= j < |ps| && p == Start(ps, j) && ps[j].key == key
  {
    if At(Rendered(ps), p, Pattern(key)) {
      PatternParts(Rendered(ps), p, key);
      assert ps[..|ps|] == ps;
      MatchIsInField(ps, |ps|, key, p);
    }
    forall j | 0 <= j < |ps| && p == Start(ps, j) && ps[j].key == key
      ensures At(Rendered(ps), p, Pattern(key))
    {
      FieldAt(ps, j);
      PrintedParts(Rendered(ps), p, ps[j]);
    }
  }

  /** With distinct keys the first match is the field's own. */
  lemma FindsOwnField(ps: seq<Pair>, i: nat)
    requires IsFlat(ps) && DistinctKeys(ps) && i < |ps|
    ensures Find(Rendered(ps), Pattern(ps[i].key)) == Some(Start(ps, i))
  {
    var key := ps[i].key;
    assert ps[i] in ps;
    MatchIffOwnField(ps, key, Start(ps, i));
    var r := Find(Rendered(ps), Pattern(key));
    if r.Some? {
      MatchIffOwnField(ps, key, r.value);
      var j :| 0 <= j < |ps| && r.value == Start(ps, j) && ps[j].key == key;
      assert j == i;
    }
  }

  /** A key that no field has is not found. */
  lemma AbsentKeyNotFound(ps: seq<Pair>, key: string)
    requires IsFlat(ps) && IsKey(key)
    ensures Find(Rendered(ps), Pattern(key)).None? <==> forall f :: f in ps ==> f.key != key
  {
    var r := Find(Rendered(ps), Pattern(key));
    if r.Some? {
      MatchIffOwnField(ps, key, r.value);
    } else {
      forall f | f in ps ensures f.key != key {
        var j :| 0 <= j < |ps| && ps[j] == f;
        MatchIffOwnField(ps, key, Start(ps, j));
      }
    }
  }

  /** The pattern for string fields finds the field iff its value is quoted. */
  lemma FindsStringField(ps: seq<Pair>, i: nat)
    requires IsFlat(ps) && DistinctKeys(ps) && i < |ps|
    ensures Find(Rendered(ps), StringPattern(ps[i].key)) ==
            if IsQuoted(ps[i].raw) then Some(Start(ps, i)) else None
  {
    StringMatch(ps, i, Start(ps, i));
    var r := Find(Rendered(ps), StringPattern(ps[i].key));
    if r.Some? {
      StringMatch(ps, i, r.value);
    }
  }

  lemma StringMatch(ps: seq<Pair>, i: nat, p: nat)
    requires IsFlat(ps) && DistinctKeys(ps) && i < |ps|
    ensures At(Rendered(ps), p, StringPattern(ps[i].key)) <==> p == Start(ps, i) && IsQuoted(ps[i].raw)
  {
    var text, key, raw := Rendered(ps), ps[i].key, ps[i].raw;
    assert ps[i] in ps;
    FieldAt(ps, i);
    PrintedParts(text, Start(ps, i), ps[i]);
    MatchIffOwnField(ps, key, p);
    var k := |Pattern(key)|;
    StringPatternParts(text, p, key);
    if p == Start(ps, i) {
      assert raw != "" ==> text[p + k] == raw[0];
      assert raw != "" && IsPlain(raw) ==> raw[0] in raw;
    }
  }

  lemma StringPatternParts(text: string, p: nat, key: string)
    ensures At(text, p, StringPattern(key)) <==>
            At(text, p, Pattern(key)) && p + |Pattern(key)| < |text| && text[p + |Pattern(key)|] == QUOTE
  {
    assert StringPattern(key)[|Pattern(key)|] == QUOTE;
    assert forall j :: 0 <= j < |Pattern(key)| ==> StringPattern(key)[j] == Pattern(key)[j];
  }
}
