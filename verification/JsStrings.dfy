/** JavaScript strings where their UTF-16 code units matter: for the order used by
    `Array.prototype.sort`, for `substring`, and for lone surrogates. */
module JsStrings {
  type CodeUnit = u: int | 0 <= u < 0x1_0000 witness 0
  type JsString = seq<CodeUnit>

  /** The code units of a literal (a character of the basic plane is one unit). */
  function Units(literal: string): (units: JsString)
    requires forall i :: 0 <= i < |literal| ==> literal[i] as int < 0x1_0000
    ensures |units| == |literal|
    ensures forall i :: 0 <= i < |literal| ==> units[i] == literal[i] as int
  {
    seq(|literal|, i requires 0 <= i < |literal| => literal[i] as int)
  }

  /** The default comparison of `Array.prototype.sort`: code unit by code unit. */
  predicate Leq(a: JsString, b: JsString) {
    a == [] || (b != [] && (a[0] < b[0] || (a[0] == b[0] && Leq(a[1..], b[1..]))))
  }

  /** `a` and `b` agree before place `i`, and `a` is smaller there. */
  predicate SmallerAt(a: JsString, b: JsString, i: nat) {
    i < |a| && i < |b| && a[..i] == b[..i] && a[i] < b[i]
  }

  /** The order: a prefix comes first, and otherwise the first difference decides. */
  lemma {:induction false} LeqMeans(a: JsString, b: JsString)
    ensures Leq(a, b) <==> a <= b || exists i: nat :: SmallerAt(a, b, i)
  {
    if a != [] && b != [] && a[0] == b[0] {
      LeqMeans(a[1..], b[1..]);
      assert a == [a[0]] + a[1..] && b == [b[0]] + b[1..];
      if i: nat :| SmallerAt(a[1..], b[1..], i) {
        assert a[..i + 1] == [a[0]] + a[1..][..i] && b[..i + 1] == [b[0]] + b[1..][..i];
        assert SmallerAt(a, b, i + 1);
      }
      if i: nat :| SmallerAt(a, b, i) {
        assert i > 0;
        assert a[1..][..i - 1] == a[..i][1..] && b[1..][..i - 1] == b[..i][1..];
        assert SmallerAt(a[1..], b[1..], i - 1);
      }
    } else if a != [] && b != [] && a[0] < b[0] {
      assert SmallerAt(a, b, 0);
    } else if a != [] && b != [] {
      forall i: nat ensures !SmallerAt(a, b, i) {
        if 0 < i <= |a| && i <= |b| && a[..i] == b[..i] { StartsAlike(a, b, i); }
      }
    }
  }

  lemma StartsAlike(a: JsString, b: JsString, i: nat)
    requires 0 < i <= |a| && i <= |b| && a[..i] == b[..i]
    ensures a[0] == b[0]
  {
    assert a[0] == a[..i][0] && b[0] == b[..i][0];
  }

  lemma {:induction false} LeqAntisymmetric(a: JsString, b: JsString)
    requires Leq(a, b) && Leq(b, a)
    ensures a == b
  {
    if a != [] {
      LeqAntisymmetric(a[1..], b[1..]);
      assert a == [a[0]] + a[1..] && b == [b[0]] + b[1..];
    }
  }

  lemma {:induction false} LeqTransitive(a: JsString, b: JsString, c: JsString)
    requires Leq(a, b) && Leq(b, c)
    ensures Leq(a, c)
  {
    if a != [] && a[0] == b[0] && b[0] == c[0] {
      LeqTransitive(a[1..], b[1..], c[1..]);
    }
  }

  lemma {:induction false} LeqTotal(a: JsString, b: JsString)
    ensures Leq(a, b) || Leq(b, a)
  {
    if a != [] && b != [] && a[0] == b[0] {
      LeqTotal(a[1..], b[1..]);
    }
  }
}
