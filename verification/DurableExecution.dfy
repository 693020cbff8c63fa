/** src/trace/context/extractors/durable-execution.ts: the latest `_datadog_{N}` checkpoint. */
module DurableExecution {
  import opened Wrappers
  import opened Numerals

  const TRACE_CHECKPOINT_NAME_PREFIX := "_datadog_"

  /** An operation of the event; `None` where a property, or the operation, is missing. */
  datatype Operation = Operation(name: Option<string>, payload: Option<string>, stepResult: Option<string>)

  /** `JSON.parse` gives an object (or array), or a value that is not one. */
  datatype Parsed<T> = AnObject(fields: T) | SomethingElse

  const MAX_SAFE_INTEGER: int := 0x1F_FFFF_FFFF_FFFF

  /** JavaScript numbers: the double nearest to an integer, and `String` of it. */
  datatype Doubles = Doubles(round: int -> int, text: int -> string)

  /** Integers up to 2^53 - 1 are doubles, and print as themselves. Nothing is asked of
      larger ones. */
  ghost predicate ExactWhenSafe(d: Doubles) {
    forall n :: IsSafe(n) ==> d.round(n) == n && d.text(n) == IntText(n)
  }

  predicate IsSafe(n: int) { -MAX_SAFE_INTEGER <= n <= MAX_SAFE_INTEGER }

  predicate IsSpace(c: char) {
    var u := c as int;
    0x9 <= u <= 0xD || u == 0x20 || u == 0xA0 || u == 0x1680 || 0x2000 <= u <= 0x200A
    || u == 0x2028 || u == 0x2029 || u == 0x202F || u == 0x205F || u == 0x3000 || u == 0xFEFF
  }

  function TrimStart(s: string): string {
    if s != [] && IsSpace(s[0]) then TrimStart(s[1..]) else s
  }

  function DigitPrefix(s: string): (r: string)
    ensures AreDigits(r, 10)
  {
    if s != [] && '0' <= s[0] <= '9' then [s[0]] + DigitPrefix(s[1..]) else []
  }

  /** `Number.parseInt(s, 10)`; None is NaN. */
  function ParseInt(d: Doubles, s: string): Option<int> {
    var t := TrimStart(s);
    var signed := t != [] && (t[0] == '-' || t[0] == '+');
    var digits := DigitPrefix(if signed then t[1..] else t);
    if digits == [] then None
    else
      var magnitude: int := Value(digits, 10);
      Some(d.round(if signed && t[0] == '-' then -magnitude else magnitude))
  }

  /** The canonical decimal of an integer. */
  function IntText(n: int): string {
    if n < 0 then "-" + Print(-n, 10) else Print(n, 10)
  }

  function ParseTraceCheckpointNumber(d: Doubles, name: Option<string>): Option<int> {
    match name
    case None => None
    case Some(s) =>
      if !(TRACE_CHECKPOINT_NAME_PREFIX <= s) then None
      else
        var suffix := s[|TRACE_CHECKPOINT_NAME_PREFIX|..];
        match ParseInt(d, suffix)
        case None => None
        case Some(n) => if d.text(n) == suffix then Some(n) else None
  }

  /** Canonical: decimal digits without a leading zero, except for 0 itself, and a minus sign
      in front of a negative number. */
  lemma TextIsCanonical(n: int)
    ensures n == 0 ==> IntText(n) == "0"
    ensures n > 0 ==> IsDecimal(IntText(n)) && IntText(n) != "" && IntText(n)[0] != '0'
    ensures n >= 0 ==> AreDigits(IntText(n), 10) && Value(IntText(n), 10) == n
    ensures n < 0 ==> IntText(n) == "-" + IntText(-n)
  {
    if n >= 0 {
      NoLeadingZero(n, 10);
      PrintedDigits(n);
      PrintIsDecimal(n);
    }
  }

  lemma {:induction false} AllDigits(s: string)
    requires IsDecimal(s)
    ensures DigitPrefix(s) == s
  {
    if s != [] { AllDigits(s[1..]); }
  }

  lemma PrintedDigits(n: nat)
    ensures var s := Print(n, 10);
            && DigitPrefix(s) == s && AreDigits(s, 10) && Value(s, 10) == n && TrimStart(s) == s
            && s[0] != '-' && s[0] != '+'
  {
    PrintIsDecimal(n);
    ValueOfPrint(n, 10);
    AllDigits(Print(n, 10));
  }

  lemma ParseNegative(d: Doubles, n: nat)
    requires n > 0
    ensures ParseInt(d, "-" + Print(n, 10)) == Some(d.round(-(n as int)))
  {
    PrintedDigits(n);
    var s := "-" + Print(n, 10);
    assert TrimStart(s) == s && s[1..] == Print(n, 10);
  }

  lemma ParseNonNegative(d: Doubles, n: nat)
    ensures ParseInt(d, Print(n, 10)) == Some(d.round(n))
  {
    PrintedDigits(n);
  }

  /** Reading the decimal of n gives the double nearest to n. */
  lemma ParseIntOfText(d: Doubles, n: int)
    ensures ParseInt(d, IntText(n)) == Some(d.round(n))
  {
    if n < 0 { ParseNegative(d, -n); } else { ParseNonNegative(d, n); }
  }

  /** For safe integers, negative ones too, exactly the name `_datadog_` + canonical decimal
      is accepted with the number it spells. */
  lemma AcceptsCanonicalDecimals(d: Doubles, name: string, n: int)
    requires ExactWhenSafe(d) && IsSafe(n)
    ensures ParseTraceCheckpointNumber(d, Some(name)) == Some(n)
       <==> name == "_datadog_" + IntText(n)
  {
    var prefix := TRACE_CHECKPOINT_NAME_PREFIX;
    if name == prefix + IntText(n) {
      assert name[|prefix|..] == IntText(n);
      ParseIntOfText(d, n);
    } else if prefix <= name {
      assert name == prefix + name[|prefix|..];
    }
  }

  /** Any decimal is refused unless the double nearest to it prints as that decimal. */
  lemma RoundedNamesAreRefused(d: Doubles, n: int)
    ensures ParseTraceCheckpointNumber(d, Some(TRACE_CHECKPOINT_NAME_PREFIX + IntText(n)))
         == if d.text(d.round(n)) == IntText(n) then Some(d.round(n)) else None
  {
    var prefix := TRACE_CHECKPOINT_NAME_PREFIX;
    assert (prefix + IntText(n))[|prefix|..] == IntText(n);
    ParseIntOfText(d, n);
  }

  /** The checkpoint number of each operation. */
  function Numbers(d: Doubles, operations: seq<Operation>): (numbers: seq<Option<int>>)
    ensures |numbers| == |operations|
    ensures forall i :: 0 <= i < |operations| ==> numbers[i] == ParseTraceCheckpointNumber(d, operations[i].name)
  {
    seq(|operations|, i requires 0 <= i < |operations| => ParseTraceCheckpointNumber(d, operations[i].name))
  }

  /** Place `k` among the first `n` has a number; none is larger, and no earlier one as large. */
  predicate IsLatest(numbers: seq<Option<int>>, n: nat, k: nat)
    requires n <= |numbers|
  {
    && k < n && numbers[k].Some?
    && forall i :: 0 <= i < n && numbers[i].Some? ==>
         numbers[i].value <= numbers[k].value && (i < k ==> numbers[i].value < numbers[k].value)
  }

  method NumberOf(d: Doubles, operations: seq<Operation>, i: nat) returns (n: Option<int>)
    requires i < |operations|
    ensures n == Numbers(d, operations)[i]
  {
    n := ParseTraceCheckpointNumber(d, operations[i].name);
  }

  /** `best` is the latest of the first `n`, or they have no number at all. */
  predicate IsBest(numbers: seq<Option<int>>, n: nat, best: Option<nat>)
    requires n <= |numbers|
  {
    match best
    case None => forall i :: 0 <= i < n ==> numbers[i] == None
    case Some(k) => IsLatest(numbers, n, k)
  }

  lemma BestOfOneMore(numbers: seq<Option<int>>, n: nat, best: Option<nat>)
    requires n < |numbers| && IsBest(numbers, n, best)
    ensures var better := numbers[n].Some? && (best == None || numbers[n].value > numbers[best.value].value);
            IsBest(numbers, n + 1, if better then Some(n) else best)
  {
  }

  /** The scan keeps the first operation with the largest number. */
  method FindBest(d: Doubles, operations: seq<Operation>) returns (best: Option<nat>)
    ensures IsBest(Numbers(d, operations), |operations|, best)
  {
    ghost var numbers := Numbers(d, operations);
    best := None;
    var bestNumber := 0;
    for i := 0 to |operations|
      invariant IsBest(numbers, i, best)
      invariant best.Some? ==> numbers[best.value] == Some(bestNumber)
    {
      BestOfOneMore(numbers, i, best);
      var n := NumberOf(d, operations, i);
      if n.Some? && (best == None || n.value > bestNumber) {
        best, bestNumber := Some(i), n.value;
      }
    }
  }

  /** `Payload ?? StepDetails?.Result`, if it is a non-empty string that parses to an object. */
  function HeadersOf<T>(op: Operation, jsonParse: string -> Option<Parsed<T>>): Option<T> {
    var raw := if op.payload.Some? then op.payload else op.stepResult;
    if raw == None || raw.value == "" then None
    else match jsonParse(raw.value)
      case Some(AnObject(fields)) => Some(fields)
      case _ => None
  }

  /** `headers` is what `raw` parses to, if it is a non-empty string that parses to an
      object. */
  predicate AreParsed<T(==)>(headers: Option<T>, raw: Option<string>, jsonParse: string -> Option<Parsed<T>>) {
    if raw.Some? && raw.value != "" && jsonParse(raw.value).Some? && jsonParse(raw.value).value.AnObject?
    then headers == Some(jsonParse(raw.value).value.fields)
    else headers == None
  }

  /** A payload wins over a step result, even if it is of no use; the step result counts only
      without one. */
  lemma PayloadWins<T>(op: Operation, jsonParse: string -> Option<Parsed<T>>)
    ensures op.payload.Some? ==> AreParsed(HeadersOf(op, jsonParse), op.payload, jsonParse)
    ensures op.payload == None ==> AreParsed(HeadersOf(op, jsonParse), op.stepResult, jsonParse)
  {
  }

  /** Only the latest checkpoint is consulted: there is no fall back to an earlier one. An
      event without a list of operations counts as one with an empty list. */
  method FindLatestCheckpointHeaders<T>(
    d: Doubles, operations: seq<Operation>, jsonParse: string -> Option<Parsed<T>>)
    returns (headers: Option<T>)
    ensures exists best: Option<nat> :: IsBest(Numbers(d, operations), |operations|, best)
              && if best == None then headers == None
                 else var op := operations[best.value];
                      AreParsed(headers, if op.payload.Some? then op.payload else op.stepResult, jsonParse)
  {
    if |operations| == 0 {
      assert IsBest(Numbers(d, operations), 0, None);
      return None;
    }
    var best := FindBest(d, operations);
    if best == None { return None; }
    PayloadWins(operations[best.value], jsonParse);
    return HeadersOf(operations[best.value], jsonParse);
  }

  /** The scan's answer is determined by its contract. */
  lemma BestIsUnique(numbers: seq<Option<int>>, n: nat, a: Option<nat>, b: Option<nat>)
    requires n <= |numbers| && IsBest(numbers, n, a) && IsBest(numbers, n, b)
    ensures a == b
  {
    if a.Some? && b.Some? { assert numbers[a.value].Some? && numbers[b.value].Some?; }
  }
}
