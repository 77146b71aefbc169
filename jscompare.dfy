/** The order `Array.prototype.sort()` uses when it is called without a
    comparator: undefined elements go last, every other element is converted
    to a string and strings are compared code unit by code unit. */
module JsCompare {
  import opened Decimal
  import opened JsValues

  /** JavaScript's `a < b` on two strings. */
  predicate StrLess(a: string, b: string): (r: bool)
    ensures a == b ==> !r
    ensures |a| < |b| && a == b[..|a|] ==> r
    ensures r && |a| > 0 && |b| > 0 ==> a[0] <= b[0]
    decreases |a|
  {
    if |a| == 0 then |b| > 0
    else if |b| == 0 then false
    else if a[0] != b[0] then a[0] < b[0]
    else StrLess(a[1..], b[1..])
  }

  /** "a sorts before b" under the default sort order. */
  predicate StampLess(a: Stamp, b: Stamp): (r: bool)
    ensures r ==> a.Ts?
    ensures a.Ts? && b.NoStamp? ==> r
    ensures a == b ==> !r
  {
    match (a, b)
    case (Ts(x), Ts(y)) => StrLess(IntStr(x), IntStr(y))
    case (Ts(_), NoStamp) => true
    case (NoStamp, _) => false
  }

  lemma {:induction false} StrLessIrreflexive(a: string)
    ensures !StrLess(a, a)
    decreases |a|
  {
    if |a| > 0 {
      StrLessIrreflexive(a[1..]);
    }
  }

  lemma {:induction false} StrLessAsymmetric(a: string, b: string)
    ensures !(StrLess(a, b) && StrLess(b, a))
    decreases |a|
  {
    if |a| > 0 && |b| > 0 && a[0] == b[0] {
      StrLessAsymmetric(a[1..], b[1..]);
    }
  }

  lemma {:induction false} StrLessTransitive(a: string, b: string, c: string)
    requires StrLess(a, b) && StrLess(b, c)
    ensures StrLess(a, c)
    decreases |a|
  {
    if |a| > 0 && a[0] == b[0] && b[0] == c[0] {
      StrLessTransitive(a[1..], b[1..], c[1..]);
    }
  }

  lemma {:induction false} StrLessTotal(a: string, b: string)
    requires a != b
    ensures StrLess(a, b) || StrLess(b, a)
    decreases |a|
  {
    if |a| > 0 && |b| > 0 && a[0] == b[0] {
      assert a == [a[0]] + a[1..] && b == [b[0]] + b[1..];
      StrLessTotal(a[1..], b[1..]);
    }
  }

  /** Strings of equal length compare by their first difference. */
  lemma {:induction false} StrLessSnoc(a: string, b: string, c: char, d: char)
    requires |a| == |b|
    ensures StrLess(a + [c], b + [d]) <==> StrLess(a, b) || (a == b && c < d)
    decreases |a|
  {
    if |a| == 0 {
      assert a + [c] == [c] && b + [d] == [d];
    } else {
      assert (a + [c])[1..] == a[1..] + [c];
      assert (b + [d])[1..] == b[1..] + [d];
      StrLessSnoc(a[1..], b[1..], c, d);
      if a[0] == b[0] {
        assert a == b <==> a[1..] == b[1..] by {
          assert a == [a[0]] + a[1..] && b == [b[0]] + b[1..];
        }
      }
    }
  }

  /** For natural numbers printed with the same number of digits, string
      order is numeric order. */
  lemma {:induction false} SameWidthOrder(x: nat, y: nat)
    requires |NatStr(x)| == |NatStr(y)|
    ensures StrLess(NatStr(x), NatStr(y)) <==> x < y
    decreases |NatStr(x)|
  {
    if x >= 10 {
      var x', y' := x / 10, y / 10;
      SameWidthOrder(x', y');
      SameWidthOrder(y', x');
      StrLessIrreflexive(NatStr(x'));
      StrLessSnoc(NatStr(x'), NatStr(y'), DigitChar(x % 10), DigitChar(y % 10));
      assert NatStr(x') == NatStr(y') <==> x' == y' by {
        if x' != y' {
          StrLessIrreflexive(NatStr(y'));
        }
      }
      assert x < y <==> x' < y' || (x' == y' && x % 10 < y % 10);
    }
  }

  lemma StampLessAsymmetric(a: Stamp, b: Stamp)
    ensures !(StampLess(a, b) && StampLess(b, a))
  {
    if a.Ts? && b.Ts? {
      StrLessAsymmetric(IntStr(a.t), IntStr(b.t));
    }
  }

  lemma StampLessIrreflexive(a: Stamp)
    ensures !StampLess(a, a)
  {
    if a.Ts? {
      StrLessIrreflexive(IntStr(a.t));
    }
  }

  /** "Does not sort before" is transitive, as a sort comparator must be. */
  lemma StampNotLessTransitive(a: Stamp, b: Stamp, c: Stamp)
    requires !StampLess(a, b) && !StampLess(b, c)
    ensures !StampLess(a, c)
  {
    if a.Ts? && b.Ts? && c.Ts? && a != b && b != c {
      var sa, sb, sc := IntStr(a.t), IntStr(b.t), IntStr(c.t);
      if sa != sb && sb != sc {
        StrLessTotal(sa, sb);
        StrLessTotal(sb, sc);
        StrLessTransitive(sc, sb, sa);
        StrLessAsymmetric(sa, sc);
      }
    }
  }
}
