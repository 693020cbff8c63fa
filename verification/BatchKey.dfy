/** src/metrics/batcher.ts, `getBatchKey`: a metric's identity as canonical JSON text.
    The text follows section 7 of RFC 8259, with the escapes `JSON.stringify` chooses. */
module BatchKey {
  import opened Wrappers
  import opened Sequences
  import opened JsStrings
  import opened MetricsModel

  // ---------- sorting the tags ----------

  ghost predicate Sorted(tags: seq<JsString>) {
    forall i, j :: 0 <= i < j < |tags| ==> Leq(tags[i], tags[j])
  }

  function Insert(tag: JsString, sorted: seq<JsString>): seq<JsString> {
    if sorted == [] || Leq(tag, sorted[0]) then [tag] + sorted
    else [sorted[0]] + Insert(tag, sorted[1..])
  }

  function SortTags(tags: seq<JsString>): seq<JsString> {
    if tags == [] then [] else Insert(tags[0], SortTags(tags[1..]))
  }

  lemma {:induction false} InsertKeeps(tag: JsString, sorted: seq<JsString>)
    requires Sorted(sorted)
    ensures Sorted(Insert(tag, sorted))
    ensures multiset(Insert(tag, sorted)) == multiset{tag} + multiset(sorted)
  {
    if sorted == [] {
    } else if Leq(tag, sorted[0]) {
      forall i | 0 <= i < |sorted| ensures Leq(tag, sorted[i]) {
        if i > 0 { LeqTransitive(tag, sorted[0], sorted[i]); }
      }
    } else {
      InsertKeeps(tag, sorted[1..]);
      LeqTotal(tag, sorted[0]);
      assert sorted == [sorted[0]] + sorted[1..];
      var rest := Insert(tag, sorted[1..]);
      forall x | x in rest ensures Leq(sorted[0], x) {
        assert x in multiset(rest);
        assert x == tag || x in sorted[1..];
      }
    }
  }

  lemma {:induction false} SortTagsSorts(tags: seq<JsString>)
    ensures Sorted(SortTags(tags))
    ensures multiset(SortTags(tags)) == multiset(tags)
  {
    if tags != [] {
      SortTagsSorts(tags[1..]);
      InsertKeeps(tags[0], SortTags(tags[1..]));
      assert tags == [tags[0]] + tags[1..];
    }
  }

  /** A multiset has one sorted arrangement, so any sorting algorithm gives this one. */
  lemma {:induction false} SortedPermutationIsUnique(a: seq<JsString>, b: seq<JsString>)
    requires Sorted(a) && Sorted(b)
    requires multiset(a) == multiset(b)
    ensures a == b
  {
    assert |a| == |multiset(a)| == |multiset(b)| == |b|;
    if a != [] {
      assert a[0] in multiset(b) && b[0] in multiset(a);
      HeadIsLeast(a, b[0]);
      HeadIsLeast(b, a[0]);
      LeqAntisymmetric(a[0], b[0]);
      TailMultiset(a);
      TailMultiset(b);
      SortedPermutationIsUnique(a[1..], b[1..]);
    }
  }

  lemma TailMultiset(a: seq<JsString>)
    requires a != []
    ensures multiset(a[1..]) == multiset(a) - multiset{a[0]}
    ensures a == [a[0]] + a[1..]
  {
    assert a == [a[0]] + a[1..];
  }

  lemma HeadIsLeast(a: seq<JsString>, x: JsString)
    requires Sorted(a) && x in a
    ensures Leq(a[0], x)
  {
    var i :| 0 <= i < |a| && a[i] == x;
    if i == 0 { LeqReflexive(x); }
  }

  lemma {:induction false} LeqReflexive(a: JsString)
    ensures Leq(a, a)
  {
    LeqTotal(a, a);
  }

  // ---------- JSON text of a string ----------

  const QUOTE: CodeUnit := 34
  const BACKSLASH: CodeUnit := 92

  predicate IsHighSurrogate(u: CodeUnit) { 0xD800 <= u <= 0xDBFF }
  predicate IsLowSurrogate(u: CodeUnit) { 0xDC00 <= u <= 0xDFFF }

  function HexDigit(d: int): CodeUnit
    requires 0 <= d < 16
  {
    if d < 10 then 48 + d else 87 + d
  }

  /** `\uXXXX`, four lower-case hexadecimal digits. */
  function UnicodeEscape(u: CodeUnit): JsString {
    [BACKSLASH, 117, HexDigit(u / 4096), HexDigit(u / 256 % 16), HexDigit(u / 16 % 16), HexDigit(u % 16)]
  }

  /** The text of one unit. `paired` says that the unit belongs to a surrogate pair. */
  function Token(u: CodeUnit, paired: bool): (t: JsString)
    ensures t != [] && t[0] != QUOTE
  {
    if u == QUOTE || u == BACKSLASH then [BACKSLASH, u]
    else if u == 8 then [BACKSLASH, 98]
    else if u == 9 then [BACKSLASH, 116]
    else if u == 10 then [BACKSLASH, 110]
    else if u == 12 then [BACKSLASH, 102]
    else if u == 13 then [BACKSLASH, 114]
    else if u < 32 then UnicodeEscape(u)
    else if (IsHighSurrogate(u) || IsLowSurrogate(u)) && !paired then UnicodeEscape(u)
    else [u]
  }

  predicate StartsPair(s: JsString) {
    |s| > 1 && IsHighSurrogate(s[0]) && IsLowSurrogate(s[1])
  }

  /** Where in a string literal the writer is. `secondOfPair` says that the unit just
      written is a high surrogate paired with the next one. */
  datatype Position = Opening | Inside(secondOfPair: bool)

  /** The literal from here on, with its quotation marks. */
  function Literal(s: JsString, at: Position): JsString
    decreases |s|, if at.Opening? then 1 else 0
  {
    match at
    case Opening => [QUOTE] + Literal(s, Inside(false))
    case Inside(secondOfPair) =>
      if s == [] then [QUOTE]
      else
        var startsPair := !secondOfPair && StartsPair(s);
        Token(s[0], secondOfPair || startsPair) + Literal(s[1..], Inside(startsPair))
  }

  function Quote(s: JsString): JsString {
    Literal(s, Opening)
  }

  /** The texts of units form a prefix code that does not depend on pairing. */
  lemma TokenIsPrefixFree(u: CodeUnit, pu: bool, v: CodeUnit, pv: bool, x: JsString, y: JsString)
    requires Token(u, pu) + x == Token(v, pv) + y
    ensures u == v && x == y
  {
    var t, w := Token(u, pu), Token(v, pv);
    var both := t + x;
    assert both[0] == t[0] == w[0];
    if |t| > 1 { assert both[1] == t[1]; }
    if |w| > 1 { assert both[1] == w[1]; }
    if |t| == 6 && |w| == 6 {
      assert both[2] == t[2] == w[2] && both[3] == t[3] == w[3];
      assert both[4] == t[4] == w[4] && both[5] == t[5] == w[5];
      FourDigitsDetermine(u, v);
    }
    assert u == v && |t| == |w|;
    assert x == both[|t|..] == both[|w|..] == y;
  }

  lemma FourDigitsDetermine(u: CodeUnit, v: CodeUnit)
    requires HexDigit(u / 4096) == HexDigit(v / 4096) && HexDigit(u / 256 % 16) == HexDigit(v / 256 % 16)
    requires HexDigit(u / 16 % 16) == HexDigit(v / 16 % 16) && HexDigit(u % 16) == HexDigit(v % 16)
    ensures u == v
  {
    FourDigits(u);
    FourDigits(v);
  }

  lemma FourDigits(u: CodeUnit)
    ensures u == 4096 * (u / 4096) + 256 * (u / 256 % 16) + 16 * (u / 16 % 16) + u % 16
  {
    assert u / 256 / 16 == u / 4096;
    assert u / 16 / 16 == u / 256;
  }

  /** A literal tells where it ends and what it encodes. */
  lemma {:induction false} InsideIsPrefixFree(
    a: JsString, sa: bool, b: JsString, sb: bool, x: JsString, y: JsString)
    requires Literal(a, Inside(sa)) + x == Literal(b, Inside(sb)) + y
    ensures a == b && x == y
  {
    EndOfLiteral(a, sa, x);
    EndOfLiteral(b, sb, y);
    if a == [] && b == [] {
      DropPrefix([QUOTE], x, y);
    } else if a != [] && b != [] {
      var pa, pb := !sa && StartsPair(a), !sb && StartsPair(b);
      var ra, rb := Literal(a[1..], Inside(pa)), Literal(b[1..], Inside(pb));
      Regroup(Token(a[0], sa || pa), ra, x);
      Regroup(Token(b[0], sb || pb), rb, y);
      TokenIsPrefixFree(a[0], sa || pa, b[0], sb || pb, ra + x, rb + y);
      InsideIsPrefixFree(a[1..], pa, b[1..], pb, x, y);
      assert a == [a[0]] + a[1..] && b == [b[0]] + b[1..];
    }
  }

  lemma EndOfLiteral(a: JsString, sa: bool, x: JsString)
    ensures Literal(a, Inside(sa)) != []
    ensures (Literal(a, Inside(sa)) + x)[0] == QUOTE <==> a == []
  {
  }

  lemma QuoteIsPrefixFree(a: JsString, b: JsString, x: JsString, y: JsString)
    requires Quote(a) + x == Quote(b) + y
    ensures a == b && x == y
  {
    Regroup([QUOTE], Literal(a, Inside(false)), x);
    Regroup([QUOTE], Literal(b, Inside(false)), y);
    DropPrefix([QUOTE], Literal(a, Inside(false)) + x, Literal(b, Inside(false)) + y);
    InsideIsPrefixFree(a, false, b, false, x, y);
  }

  /** The escapes: a backslash (92) and one unit for the quotation mark, the backslash, and
      \b, \t, \n, \f and \r. */
  lemma ShortEscapes(paired: bool)
    ensures Token(34, paired) == [92, 34] && Token(92, paired) == [92, 92]
    ensures Token(8, paired) == [92, 98] && Token(9, paired) == [92, 116] && Token(10, paired) == [92, 110]
    ensures Token(12, paired) == [92, 102] && Token(13, paired) == [92, 114]
  {
  }

  /** `\u` and four digits for the other control units and for lone surrogates; everything
      else stands for itself. */
  lemma LongEscapes(u: CodeUnit, paired: bool)
    requires u != 34 && u != 92 && u !in [8, 9, 10, 12, 13]
    ensures if u < 32 || (0xD800 <= u <= 0xDFFF && !paired) then Token(u, paired)[..2] == [92, 117]
            else Token(u, paired) == [u]
    ensures Token(31, paired) == [92, 117, 48, 48, 49, 102]
  {
  }

  // ---------- JSON text of the key ----------

  const COMMA: CodeUnit := 44
  const CLOSE: CodeUnit := 93

  /** What follows the `[` of a string array, the separators placed before each later item. */
  function Items(tags: seq<JsString>, first: bool): JsString {
    if tags == [] then [CLOSE]
    else (if first then [] else [COMMA]) + Quote(tags[0]) + Items(tags[1..], false)
  }

  lemma {:induction false} ItemsArePrefixFree(
    a: seq<JsString>, b: seq<JsString>, first: bool, x: JsString, y: JsString)
    requires Items(a, first) + x == Items(b, first) + y
    ensures a == b && x == y
  {
    ItemsStart(a, first, x);
    ItemsStart(b, first, y);
    if a == [] && b == [] {
      DropPrefix([CLOSE], x, y);
    } else if a != [] && b != [] {
      var separator: JsString := if first then [] else [COMMA];
      var ra, rb := Items(a[1..], false), Items(b[1..], false);
      Regroup(separator + Quote(a[0]), ra, x);
      Regroup(separator + Quote(b[0]), rb, y);
      Regroup(separator, Quote(a[0]), ra + x);
      Regroup(separator, Quote(b[0]), rb + y);
      DropPrefix(separator, Quote(a[0]) + (ra + x), Quote(b[0]) + (rb + y));
      QuoteIsPrefixFree(a[0], b[0], ra + x, rb + y);
      ItemsArePrefixFree(a[1..], b[1..], false, x, y);
      assert a == [a[0]] + a[1..] && b == [b[0]] + b[1..];
    }
  }

  lemma ItemsStart(tags: seq<JsString>, first: bool, x: JsString)
    ensures Items(tags, first) != []
    ensures (Items(tags, first) + x)[0] == CLOSE <==> tags == []
  {
  }

  function HostField(): JsString { Units("{\"host\":") }
  function TypeFieldAfterHost(): JsString { Units(",\"metricType\":") }
  function TypeField(): JsString { Units("{\"metricType\":") }
  function NameField(): JsString { Units(",\"name\":") }
  function TagsField(): JsString { Units(",\"tags\":[") }
  function EndOfObject(): JsString { Units("}") }

  /** `JSON.stringify` leaves an undefined host out. */
  function HostAndTypeField(host: Option<JsString>): JsString {
    match host
    case Some(h) => HostField() + (Quote(h) + TypeFieldAfterHost())
    case None => TypeField()
  }

  function KeyText(key: MetricKey): JsString {
    HostAndTypeField(key.host) + (Quote(key.metricType) + (NameField() + (Quote(key.name)
    + (TagsField() + (Items(SortTags(key.tags), true) + EndOfObject())))))
  }

  lemma HostIsPrefixFree(a: Option<JsString>, b: Option<JsString>, x: JsString, y: JsString)
    requires HostAndTypeField(a) + x == HostAndTypeField(b) + y
    ensures a == b && x == y
  {
    if a.Some? && b.Some? {
      HostThen(a.value, x);
      HostThen(b.value, y);
      DropPrefix(HostField(), Quote(a.value) + (TypeFieldAfterHost() + x), Quote(b.value) + (TypeFieldAfterHost() + y));
      QuoteIsPrefixFree(a.value, b.value, TypeFieldAfterHost() + x, TypeFieldAfterHost() + y);
      DropPrefix(TypeFieldAfterHost(), x, y);
    } else if a.None? && b.None? {
      DropPrefix(TypeField(), x, y);
    } else {
      ThirdUnit(a, x);
      ThirdUnit(b, y);
    }
  }

  lemma HostThen(host: JsString, x: JsString)
    ensures HostAndTypeField(Some(host)) + x == HostField() + (Quote(host) + (TypeFieldAfterHost() + x))
  {
    Regroup(HostField(), Quote(host) + TypeFieldAfterHost(), x);
    Regroup(Quote(host), TypeFieldAfterHost(), x);
  }

  /** `{"h...` against `{"m...`. */
  lemma ThirdUnit(host: Option<JsString>, x: JsString)
    ensures |HostAndTypeField(host) + x| > 2
    ensures (HostAndTypeField(host) + x)[2] == if host.Some? then 'h' as int else 'm' as int
  {
    assert |HostField()| > 2 && |TypeField()| > 2;
  }

  lemma EqualTextEqualFields(k1: MetricKey, k2: MetricKey)
    requires KeyText(k1) == KeyText(k2)
    ensures k1.host == k2.host && k1.metricType == k2.metricType && k1.name == k2.name
    ensures SortTags(k1.tags) == SortTags(k2.tags)
  {
    var i1, i2 := Items(SortTags(k1.tags), true) + EndOfObject(), Items(SortTags(k2.tags), true) + EndOfObject();
    var n1, n2 := Quote(k1.name) + (TagsField() + i1), Quote(k2.name) + (TagsField() + i2);
    var t1, t2 := Quote(k1.metricType) + (NameField() + n1), Quote(k2.metricType) + (NameField() + n2);
    HostIsPrefixFree(k1.host, k2.host, t1, t2);
    QuoteIsPrefixFree(k1.metricType, k2.metricType, NameField() + n1, NameField() + n2);
    DropPrefix(NameField(), n1, n2);
    QuoteIsPrefixFree(k1.name, k2.name, TagsField() + i1, TagsField() + i2);
    DropPrefix(TagsField(), i1, i2);
    ItemsArePrefixFree(SortTags(k1.tags), SortTags(k2.tags), true, EndOfObject(), EndOfObject());
  }

  /** Two metrics share a batch exactly when host, type and name are equal and the tags
      are equal with multiplicity, whatever their order. */
  lemma SameKeyIffSameMetric(k1: MetricKey, k2: MetricKey)
    ensures KeyText(k1) == KeyText(k2) <==>
            && k1.host == k2.host && k1.metricType == k2.metricType && k1.name == k2.name
            && multiset(k1.tags) == multiset(k2.tags)
  {
    SortTagsSorts(k1.tags);
    SortTagsSorts(k2.tags);
    if KeyText(k1) == KeyText(k2) {
      EqualTextEqualFields(k1, k2);
    }
    if multiset(k1.tags) == multiset(k2.tags) {
      SortedPermutationIsUnique(SortTags(k1.tags), SortTags(k2.tags));
    }
  }
}
