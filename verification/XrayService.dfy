/** src/trace/xray-service.ts: the AWS trace header and the ids in it. */
module XrayService {
  import opened Wrappers
  import opened Sequences
  import opened Numerals

  datatype XrayTraceHeader = XrayTraceHeader(traceId: string, parentId: string, sampled: string)

  /** The value of a `name=value` field: what stands between the first `=` and the next. */
  function FieldValue(field: string): Option<string> {
    var parts := Split(field, '=');
    if |parts| < 2 then None else Some(parts[1])
  }

  /** The first three fields count, by place: their names are not looked at. */
  function ParseAWSTraceHeader(header: string): Option<XrayTraceHeader> {
    var fields := Split(header, ';');
    if |fields| < 3 then None
    else
      match (FieldValue(fields[0]), FieldValue(fields[1]), FieldValue(fields[2]))
      case (Some(traceId), Some(parentId), Some(sampled)) => Some(XrayTraceHeader(traceId, parentId, sampled))
      case _ => None
  }

  function ConvertToParentId(xrayParentId: string): Option<string> {
    if |xrayParentId| != 16 then None
    else match ParseBigInt(xrayParentId, 16)
      case None => None
      case Some(n) => Some(Print(n, 10))
  }

  function ConvertToTraceId(xrayTraceId: string): Option<string> {
    var parts := Split(xrayTraceId, '-');
    if |parts| < 3 || |parts[2]| != 24 then None
    else match ParseBigInt(parts[2], 16)
      case None => None
      case Some(n) => Some(Print(n % TWO_63, 10))
  }

  datatype Extraction =
    | NoContext
    | Throws // `BigInt` on something that is not hexadecimal
    | Context(traceId: string, parentId: string, sampled: string)

  const DD_TRACE_JAVA_TRACE_ID_PADDING := "00000000"

  function ExtractDDContext(amznTraceId: string): Extraction {
    match ParseAWSTraceHeader(amznTraceId)
    case None => NoContext
    case Some(header) =>
      var parts := Split(header.traceId, '-');
      if |parts| <= 2 || !(DD_TRACE_JAVA_TRACE_ID_PADDING <= parts[2]) then NoContext
      else
        match (ParseBigInt(parts[2][8..], 16), ParseBigInt(header.parentId, 16))
        case (Some(t), Some(p)) => Context(Print(t, 10), Print(p, 10), header.sampled)
        case _ => Throws
  }

  // ---------- the header ----------

  function MakeField(name: string, value: string): string {
    name + (['='] + value)
  }

  predicate Clean(s: string) { ';' !in s && '=' !in s }

  lemma ValueOfField(name: string, value: string)
    requires Clean(name) && Clean(value)
    ensures FieldValue(MakeField(name, value)) == Some(value) && ';' !in MakeField(name, value)
  {
    SplitAfterField(name, value, '=');
    SplitWithoutSeparator(value, '=');
  }

  /** A second `=` ends the value. */
  lemma ValueEndsAtNextEquals(name: string, value: string, more: string)
    requires '=' !in name && '=' !in value && (more == "" || more[0] == '=')
    ensures FieldValue(MakeField(name, value + more)) == Some(value)
  {
    SplitAfterField(name, value + more, '=');
    if more == "" {
      assert value + more == value;
      SplitWithoutSeparator(value, '=');
    } else {
      assert more == ['='] + more[1..];
      SplitAfterField(value, more[1..], '=');
    }
  }

  /** Parsing inverts joining, whatever the names are and whatever fields follow. */
  lemma ParseOfJoin(names: seq<string>, header: XrayTraceHeader, trailing: seq<string>)
    requires |names| == 3 && forall n :: n in names ==> Clean(n)
    requires Clean(header.traceId) && Clean(header.parentId) && Clean(header.sampled)
    requires forall f :: f in trailing ==> ';' !in f
    ensures var fields := [MakeField(names[0], header.traceId), MakeField(names[1], header.parentId),
                           MakeField(names[2], header.sampled)] + trailing;
            ParseAWSTraceHeader(Join(fields, ';')) == Some(header)
  {
    assert names[0] in names && names[1] in names && names[2] in names;
    ValueOfField(names[0], header.traceId);
    ValueOfField(names[1], header.parentId);
    ValueOfField(names[2], header.sampled);
    SplitOfJoin([MakeField(names[0], header.traceId), MakeField(names[1], header.parentId),
                 MakeField(names[2], header.sampled)] + trailing, ';');
  }

  lemma {:induction false} SplitsIffContains(s: string, separator: char)
    ensures |Split(s, separator)| >= 2 <==> separator in s
  {
    if s != [] {
      SplitsIffContains(s[1..], separator);
      assert s == [s[0]] + s[1..];
    }
  }

  /** A header parses exactly when it has three fields and each of the first three has a
      `=`. */
  lemma ParsesIff(header: string)
    ensures var fields := Split(header, ';');
            ParseAWSTraceHeader(header).Some? <==>
              |fields| >= 3 && '=' in fields[0] && '=' in fields[1] && '=' in fields[2]
  {
    var fields := Split(header, ';');
    if |fields| >= 3 {
      SplitsIffContains(fields[0], '=');
      SplitsIffContains(fields[1], '=');
      SplitsIffContains(fields[2], '=');
    }
  }

  // ---------- the ids ----------

  lemma DigitsOfParts(a: string, b: string, base: nat)
    ensures AreDigits(a + b, base) <==> AreDigits(a, base) && AreDigits(b, base)
  {
    if AreDigits(a + b, base) {
      forall i | 0 <= i < |a| ensures DigitValue(a[i]) < base { assert (a + b)[i] == a[i]; }
      forall i | 0 <= i < |b| ensures DigitValue(b[i]) < base { assert (a + b)[|a| + i] == b[i]; }
    }
  }

  lemma EvenMultiple(high: nat, low: nat)
    ensures (high * (2 * TWO_63) + low) % TWO_63 == low % TWO_63
  {
    var q := low / TWO_63;
    assert low == q * TWO_63 + low % TWO_63;
    assert high * (2 * TWO_63) + low == (2 * high + q) * TWO_63 + low % TWO_63;
    RemainderOf(high * (2 * TWO_63) + low, 2 * high + q, low % TWO_63);
  }

  /** Of 24 hexadecimal digits only the last 16 matter, and the id is their low 63 bits. */
  lemma TraceIdIsLow63Bits(xrayTraceId: string)
    ensures var parts := Split(xrayTraceId, '-');
            var well := |parts| >= 3 && |parts[2]| == 24 && AreDigits(parts[2], 16);
            && (ConvertToTraceId(xrayTraceId).Some? <==> well)
            && (well ==> && AreDigits(parts[2][8..], 16)
                         && ConvertToTraceId(xrayTraceId) == Some(Print(Value(parts[2][8..], 16) % TWO_63, 10)))
  {
    var parts := Split(xrayTraceId, '-');
    if |parts| >= 3 && |parts[2]| == 24 && AreDigits(parts[2], 16) {
      var high, low := parts[2][..8], parts[2][8..];
      assert parts[2] == high + low;
      DigitsOfParts(high, low, 16);
      ValueConcat(high, low, 16);
      assert Pow(16, 16) == 2 * TWO_63 by { PowersOfTwo(); }
      EvenMultiple(Value(high, 16), Value(low, 16));
    }
  }

  predicate TopBitClear(digits: string) {
    digits != [] && DigitValue(digits[0]) < 8
  }

  lemma TopBitDecides(low: string)
    requires |low| == 16 && AreDigits(low, 16)
    ensures Value(low, 16) < TWO_63 <==> TopBitClear(low)
  {
    var rest := low[1..];
    assert low == [low[0]] + rest;
    ValueOfFirst(low[0], rest, 16);
    ValueIsBounded(rest, 16);
    assert 16 * Pow(16, 15) == Pow(16, 16) == 2 * TWO_63 by { PowersOfTwo(); }
    WeighFirst(DigitValue(low[0]), Pow(16, 15), Value(rest, 16));
  }

  lemma WeighFirst(d: nat, p: nat, r: nat)
    requires r < p
    ensures d * p + r < 8 * p <==> d < 8
  {
    if d >= 8 { assert d * p >= 8 * p; } else { assert (d + 1) * p <= 8 * p; }
  }

  /** On a header with a zero-padded Datadog id, the direct extraction and the X-Ray
      conversion give the same trace id exactly when the top bit of its 64 bits is clear. */
  lemma ExtractionsAgreeIffTopBitClear(amznTraceId: string, header: XrayTraceHeader, low: string)
    requires ParseAWSTraceHeader(amznTraceId) == Some(header)
    requires |Split(header.traceId, '-')| >= 3
    requires Split(header.traceId, '-')[2] == DD_TRACE_JAVA_TRACE_ID_PADDING + low
    requires |low| == 16 && AreDigits(low, 16) && header.parentId != [] && AreDigits(header.parentId, 16)
    ensures ExtractDDContext(amznTraceId).Context?
    ensures ConvertToTraceId(header.traceId) == Some(ExtractDDContext(amznTraceId).traceId) <==> TopBitClear(low)
  {
    DirectExtraction(amznTraceId, header, low);
    PaddedConversion(header.traceId, low);
    TopBitDecides(low);
    CutPrintsEqually(Value(low, 16));
  }

  lemma CutPrintsEqually(n: nat)
    ensures Print(n % TWO_63, 10) == Print(n, 10) <==> n < TWO_63
  {
    var low := n % TWO_63;
    LowBitsOfSmall(n);
    if Print(low, 10) == Print(n, 10) {
      PrintIsInjective(low, n, 10);
    }
  }

  lemma PaddedConversion(traceId: string, low: string)
    requires |Split(traceId, '-')| >= 3 && Split(traceId, '-')[2] == DD_TRACE_JAVA_TRACE_ID_PADDING + low
    requires |low| == 16 && AreDigits(low, 16)
    ensures ConvertToTraceId(traceId) == Some(Print(Value(low, 16) % TWO_63, 10))
  {
    var part := Split(traceId, '-')[2];
    DigitsOfParts(DD_TRACE_JAVA_TRACE_ID_PADDING, low, 16);
    assert part[8..] == low;
    TraceIdIsLow63Bits(traceId);
  }

  lemma DirectExtraction(amznTraceId: string, header: XrayTraceHeader, low: string)
    requires ParseAWSTraceHeader(amznTraceId) == Some(header)
    requires |Split(header.traceId, '-')| >= 3
    requires Split(header.traceId, '-')[2] == DD_TRACE_JAVA_TRACE_ID_PADDING + low
    requires low != [] && AreDigits(low, 16) && header.parentId != [] && AreDigits(header.parentId, 16)
    ensures ExtractDDContext(amznTraceId)
         == Context(Print(Value(low, 16), 10), Print(Value(header.parentId, 16), 10), header.sampled)
  {
    assert (DD_TRACE_JAVA_TRACE_ID_PADDING + low)[8..] == low;
  }

  /** A parent id converts exactly if it is 16 hexadecimal digits. */
  lemma ParentIdConvertsIff(parentId: string)
    ensures ConvertToParentId(parentId).Some? <==> |parentId| == 16 && AreDigits(parentId, 16)
  {
  }

  /** When the direct extraction gives a context, and which; it gives none exactly if the
      header does not parse or the third part of its trace id does not start with eight
      zeros, and throws exactly if what it then reads is empty or not hexadecimal. */
  lemma DirectExtractionCases(amznTraceId: string)
    ensures ExtractDDContext(amznTraceId) == NoContext <==> !IsPadded(ParseAWSTraceHeader(amznTraceId))
    ensures IsPadded(ParseAWSTraceHeader(amznTraceId)) ==>
              var header := ParseAWSTraceHeader(amznTraceId).value;
              var id := Split(header.traceId, '-')[2][8..];
              if id != "" && AreDigits(id, 16) && header.parentId != "" && AreDigits(header.parentId, 16)
              then ExtractDDContext(amznTraceId)
                == Context(Print(Value(id, 16), 10), Print(Value(header.parentId, 16), 10), header.sampled)
              else ExtractDDContext(amznTraceId) == Throws
  {
  }

  /** The third part of the trace id starts with eight zeros. */
  predicate IsPadded(parsed: Option<XrayTraceHeader>) {
    parsed.Some?
    && |Split(parsed.value.traceId, '-')| >= 3 && "00000000" <= Split(parsed.value.traceId, '-')[2]
  }

  /** On 16 hexadecimal digits the conversion of the parent id loses nothing, and the parent
      id of a context that is extracted directly is the same. */
  lemma ParentIdIsExact(parentId: string, amznTraceId: string)
    requires |parentId| == 16 && AreDigits(parentId, 16)
    ensures var parsed := ParseAWSTraceHeader(amznTraceId);
            parsed.Some? && parsed.value.parentId == parentId && ExtractDDContext(amznTraceId).Context? ==>
              ConvertToParentId(parentId) == Some(ExtractDDContext(amznTraceId).parentId)
    ensures ConvertToParentId(parentId) == Some(Print(Value(parentId, 16), 10))
    ensures ConvertToParentId(parentId).value != [] && AreDigits(ConvertToParentId(parentId).value, 10)
    ensures Value(ConvertToParentId(parentId).value, 10) == Value(parentId, 16) < 2 * TWO_63
  {
    ValueOfPrint(Value(parentId, 16), 10);
    ValueIsBounded(parentId, 16);
    PowersOfTwo();
  }
}
