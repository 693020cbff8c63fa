/** `String.prototype.split` and `Array.prototype.join` over a one-unit separator,
    with the two round trips that connect them, and the index lists used to say
    that one sequence is a subsequence of another. */
module Sequences {

  function Split<T(==)>(s: seq<T>, separator: T): (parts: seq<seq<T>>)
    ensures |parts| >= 1
  {
    if s == [] then [[]]
    else
      var rest := Split(s[1..], separator);
      if s[0] == separator then [[]] + rest
      else [[s[0]] + rest[0]] + rest[1..]
  }

  function Join<T>(parts: seq<seq<T>>, separator: T): seq<T>
    requires |parts| >= 1
  {
    if |parts| == 1 then parts[0]
    else parts[0] + [separator] + Join(parts[1..], separator)
  }

  /** Splitting undoes joining when no part contains the separator. */
  lemma {:induction false} SplitOfJoin<T>(parts: seq<seq<T>>, separator: T)
    requires |parts| >= 1
    requires forall p :: p in parts ==> separator !in p
    ensures Split(Join(parts, separator), separator) == parts
  {
    if |parts| == 1 {
      SplitWithoutSeparator(parts[0], separator);
    } else {
      SplitOfJoin(parts[1..], separator);
      SplitAfterField(parts[0], Join(parts[1..], separator), separator);
      assert parts[0] + [separator] + Join(parts[1..], separator)
          == parts[0] + ([separator] + Join(parts[1..], separator));
    }
  }

  lemma {:induction false} SplitWithoutSeparator<T>(s: seq<T>, separator: T)
    requires separator !in s
    ensures Split(s, separator) == [s]
  {
    if s != [] {
      SplitWithoutSeparator(s[1..], separator);
      assert [s[0]] + s[1..] == s;
    }
  }

  /** A field followed by a separator is the first part; what follows splits on its own. */
  lemma {:induction false} SplitAfterField<T>(field: seq<T>, rest: seq<T>, separator: T)
    requires separator !in field
    ensures Split(field + ([separator] + rest), separator) == [field] + Split(rest, separator)
  {
    var s := field + ([separator] + rest);
    if field == [] {
      assert s[1..] == rest;
    } else {
      SplitAfterField(field[1..], rest, separator);
      assert s[1..] == field[1..] + ([separator] + rest);
      assert [field[0]] + field[1..] == field;
    }
  }

  /** A separator always splits; what is on either side of it splits on its own. */
  lemma {:induction false} SplitAtSeparator<T>(a: seq<T>, b: seq<T>, separator: T)
    ensures Split(a + ([separator] + b), separator) == Split(a, separator) + Split(b, separator)
  {
    var s := a + ([separator] + b);
    if a == [] {
      assert s[1..] == b;
    } else {
      SplitAtSeparator(a[1..], b, separator);
      assert s[1..] == a[1..] + ([separator] + b);
      var left, right := Split(a[1..], separator), Split(b, separator);
      if a[0] == separator {
        Regroup([[]], left, right);
      } else {
        Regroup([[a[0]] + left[0]], left[1..], right);
        HeadAndTail(left, right);
      }
    }
  }

  lemma Regroup<T>(a: seq<T>, b: seq<T>, c: seq<T>)
    ensures (a + b) + c == a + (b + c)
  {
  }

  lemma RegroupFive<T>(a: seq<T>, b: seq<T>, c: seq<T>, d: seq<T>, e: seq<T>)
    ensures (a + (b + (c + d))) + e == a + (b + (c + (d + e)))
  {
  }

  lemma DropPrefix<T>(prefix: seq<T>, x: seq<T>, y: seq<T>)
    requires prefix + x == prefix + y
    ensures x == y
  {
    assert x == (prefix + x)[|prefix|..];
    assert y == (prefix + y)[|prefix|..];
  }

  lemma TakeOneMore<T>(s: seq<T>, i: nat)
    requires i < |s|
    ensures s[..i] + [s[i]] == s[..i + 1]
  {
  }

  function Map<A, B>(f: A -> B, s: seq<A>): (r: seq<B>)
    ensures |r| == |s|
    ensures forall i :: 0 <= i < |s| ==> r[i] == f(s[i])
  {
    seq(|s|, i requires 0 <= i < |s| => f(s[i]))
  }

  lemma MapOneMore<A, B>(f: A -> B, s: seq<A>, n: nat)
    requires n < |s|
    ensures Map(f, s[..n + 1]) == Map(f, s[..n]) + [f(s[n])]
  {
  }

  lemma HeadAndTail<T>(a: seq<T>, b: seq<T>)
    requires a != []
    ensures (a + b)[0] == a[0] && (a + b)[1..] == a[1..] + b
  {
  }

  /** Joining undoes splitting on every input, and no part keeps a separator. */
  lemma {:induction false} JoinOfSplit<T>(s: seq<T>, separator: T)
    ensures Join(Split(s, separator), separator) == s
    ensures forall p :: p in Split(s, separator) ==> separator !in p
  {
    if s != [] {
      JoinOfSplit(s[1..], separator);
      var rest := Split(s[1..], separator);
      if s[0] == separator {
        assert ([[]] + rest)[1..] == rest;
        assert Join([[]] + rest, separator) == [] + [separator] + s[1..];
      } else {
        var parts := [[s[0]] + rest[0]] + rest[1..];
        assert parts[1..] == rest[1..];
        assert [s[0]] + s[1..] == s;
        if |rest| == 1 {
        } else {
          assert rest[0] + [separator] + Join(rest[1..], separator) == s[1..];
          assert Join(parts, separator) == [s[0]] + s[1..];
        }
      }
    }
  }

  ghost predicate Increasing(s: seq<nat>) {
    forall i, j :: 0 <= i < j < |s| ==> s[i] < s[j]
  }

  /** `positions` picks `part` out of `whole` from left to right, no place twice. */
  ghost predicate PicksOut<T>(part: seq<T>, whole: seq<T>, positions: seq<nat>) {
    && |positions| == |part|
    && Increasing(positions)
    && forall i :: 0 <= i < |part| ==> positions[i] < |whole| && whole[positions[i]] == part[i]
  }

  ghost predicate IsSubsequence<T>(part: seq<T>, whole: seq<T>) {
    exists positions :: PicksOut(part, whole, positions)
  }

  lemma PicksOneMore<T>(part: seq<T>, whole: seq<T>, positions: seq<nat>, x: T)
    requires PicksOut(part, whole, positions)
    ensures PicksOut(part, whole + [x], positions)
    ensures PicksOut(part + [x], whole + [x], positions + [|whole|])
    ensures |whole| !in positions
  {
  }

  lemma EmptyIsSubsequence<T>(whole: seq<T>)
    ensures IsSubsequence([], whole)
  {
    assert PicksOut([], whole, []);
  }

  lemma SubsequenceAppend<T>(part: seq<T>, whole: seq<T>, more: seq<T>)
    requires IsSubsequence(part, whole)
    ensures IsSubsequence(part, whole + more)
    ensures IsSubsequence(part + more, whole + more)
  {
    var positions :| PicksOut(part, whole, positions);
    assert PicksOut(part, whole + more, positions);
    var tail: seq<nat> := seq(|more|, i requires 0 <= i => |whole| + i);
    assert PicksOut(part + more, whole + more, positions + tail);
  }
}
