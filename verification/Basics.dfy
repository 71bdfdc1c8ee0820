/**
  Shared by the components: the option type, the order the program gives to
  identifiers, and the few string operations it relies on.
 */
module Basics {

  datatype Option<+T> = None | Some(value: T)

  /** Order by code points, a proper prefix first. */
  predicate Less(a: string, b: string) {
    |b| > 0 && (|a| == 0 || a[0] < b[0] || (a[0] == b[0] && Less(a[1..], b[1..])))
  }

  lemma {:induction false} LessIsTotal(a: string, b: string)
    ensures Less(a, b) || a == b || Less(b, a)
  {
    if |a| > 0 && |b| > 0 && a[0] == b[0] {
      LessIsTotal(a[1..], b[1..]);
      assert a == [a[0]] + a[1..] && b == [b[0]] + b[1..];
    }
  }

  lemma {:induction false} LessIsAsymmetric(a: string, b: string)
    requires Less(a, b)
    ensures !Less(b, a) && a != b
  {
    if |a| > 0 && a[0] == b[0] {
      LessIsAsymmetric(a[1..], b[1..]);
    }
  }

  lemma {:induction false} LessIsTransitive(a: string, b: string, c: string)
    requires Less(a, b) && Less(b, c)
    ensures Less(a, c)
  {
    if |a| > 0 && a[0] == b[0] == c[0] {
      LessIsTransitive(a[1..], b[1..], c[1..]);
    }
  }

  /** The first character in which they differ decides, or else the length. */
  lemma {:induction false} LessIsDecidedBy(common: string, a: string, b: string)
    requires a == "" || b == "" || a[0] != b[0]
    ensures Less(common + a, common + b) <==> b != "" && (a == "" || a[0] < b[0])
  {
    if common == "" {
      assert common + a == a && common + b == b;
    } else {
      LessIsDecidedBy(common[1..], a, b);
      assert (common + a)[1..] == common[1..] + a && (common + b)[1..] == common[1..] + b;
    }
  }

  /** Drop every trailing occurrence of a character. */
  function StripRight(s: string, c: char): (r: string)
    ensures r <= s && (forall i :: |r| <= i < |s| ==> s[i] == c)
    ensures |r| > 0 ==> r[|r| - 1] != c
  {
    if |s| > 0 && s[|s| - 1] == c then StripRight(s[..|s| - 1], c) else s
  }

  /** Does `needle` occur in `s`? */
  predicate Contains(s: string, needle: string) {
    needle <= s || (|s| > 0 && Contains(s[1..], needle))
  }

  lemma {:induction false} ContainsInside(before: string, needle: string, after: string)
    ensures Contains(before + needle + after, needle)
  {
    var s := before + needle + after;
    if before == "" {
      assert s == needle + after;
    } else {
      ContainsInside(before[1..], needle, after);
      assert s[1..] == before[1..] + needle + after;
    }
  }

  predicate StandsAt(s: string, needle: string, i: nat) {
    i + |needle| <= |s| && s[i..i + |needle|] == needle
  }

  lemma StandsInTail(s: string, needle: string, i: nat)
    requires s != ""
    ensures StandsAt(s[1..], needle, i) <==> StandsAt(s, needle, i + 1)
  {
    if i + 1 + |needle| <= |s| {
      assert s[1..][i..i + |needle|] == s[i + 1..i + 1 + |needle|];
    }
  }

  /** It occurs exactly when it stands at some position. */
  lemma {:induction false} ContainsExactlyWhen(s: string, needle: string)
    ensures Contains(s, needle) <==> exists i :: StandsAt(s, needle, i)
  {
    assert needle <= s <==> StandsAt(s, needle, 0);
    if s == "" {
    } else {
      ContainsExactlyWhen(s[1..], needle);
      forall i: nat ensures StandsAt(s[1..], needle, i) <==> StandsAt(s, needle, i + 1) {
        StandsInTail(s, needle, i);
      }
      if i: nat :| StandsAt(s, needle, i) && i > 0 {
        assert StandsAt(s[1..], needle, i - 1);
      }
    }
  }

  // ---- Sums over sequences ----

  function Sum<T>(xs: seq<T>, f: T -> nat): nat {
    if xs == [] then 0 else Sum(xs[..|xs| - 1], f) + f(xs[|xs| - 1])
  }

  lemma {:induction false} SumAfterUpdate<T>(xs: seq<T>, i: nat, x: T, f: T -> nat)
    requires i < |xs|
    ensures Sum(xs[i := x], f) + f(xs[i]) == Sum(xs, f) + f(x)
  {
    var n := |xs| - 1;
    if i == n {
      assert xs[i := x][..n] == xs[..n];
    } else {
      SumAfterUpdate(xs[..n], i, x, f);
      assert xs[i := x][..n] == xs[..n][i := x];
    }
  }

  lemma SumAfterAppend<T>(xs: seq<T>, x: T, f: T -> nat)
    ensures Sum(xs + [x], f) == Sum(xs, f) + f(x)
  {
    assert (xs + [x])[..|xs|] == xs;
  }

  lemma {:induction false} SumFront<T>(xs: seq<T>, f: T -> nat)
    requires xs != []
    ensures Sum(xs, f) == f(xs[0]) + Sum(xs[1..], f)
  {
    var n := |xs| - 1;
    if n == 0 {
      assert xs[..0] == [] && xs[1..] == [];
    } else {
      SumFront(xs[..n], f);
      assert xs[..n][1..] == xs[1..][..n - 1];
    }
  }

  lemma {:induction false} SumOfEqual<T>(xs: seq<T>, x: T, f: T -> nat)
    requires forall i :: 0 <= i < |xs| ==> xs[i] == x
    ensures Sum(xs, f) == |xs| * f(x)
  {
    if xs == [] {
    } else {
      SumOfEqual(xs[..|xs| - 1], x, f);
    }
  }

  // ---- Real arithmetic ----

  lemma ScaledOrder(w: real, p: real, q: real)
    requires w >= 0.0 && p > q
    ensures w * p >= w * q && (w > 0.0 ==> w * p > w * q)
  {
    assert w * p - w * q == w * (p - q);
    if w > 0.0 {
      assert w * (p - q) > 0.0;
    }
  }

  lemma ReciprocalOrder(x: real, y: real)
    requires 0.0 < x < y
    ensures 1.0 / x > 1.0 / y > 0.0
  {
    var u, v := 1.0 / x, 1.0 / y;
    assert u * x == 1.0 && v * y == 1.0;
    ScaledOrder(v, y, x);
    assert (u - v) * x == u * x - v * x;
  }
}
