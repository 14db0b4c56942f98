/** Small shared vocabulary: optional values and decimal rounding. */
module Wrappers {
  datatype Option<+T> = None | Some(value: T)

  function Abs(x: int): (r: int)
    ensures r >= 0
  {
    if x >= 0 then x else -x
  }
}

/** `Decimal.quantize` and Python's `round` on exact rationals `n / d`. The results are counts of the
    smallest unit kept (pence, thousandths, hundredths). */
module Rounding {
  type Positive = n: int | n > 0 witness 1

  /** A Decimal setting as an exact fraction. */
  datatype Ratio = Ratio(num: int, den: Positive)

  /** ROUND_HALF_EVEN: the nearest integer, ties to the even neighbour. */
  function HalfEven(n: int, d: int): (r: int)
    requires d > 0
    ensures -d <= 2 * (n - d * r) <= d
  {
    var q, rest := n / d, n % d;
    QuotientAndRest(n, d);
    if 2 * rest < d || (2 * rest == d && q % 2 == 0) then q else q + 1
  }

  lemma QuotientAndRest(n: int, d: int)
    requires d > 0
    ensures 0 <= n % d < d && n - d * (n / d) == n % d && n - d * (n / d + 1) == n % d - d
  {}

  /** ROUND_HALF_UP: the nearest integer, ties away from zero. */
  function HalfUp(n: int, d: int): (r: int)
    requires d > 0
    ensures -d <= 2 * (n - d * r) <= d
    ensures n >= 0 ==> r >= 0
    ensures n <= 0 ==> r <= 0
  {
    if n >= 0 then
      HalfUpNat(n, d)
    else
      var m := HalfUpNat(-n, d);
      assert d * -m == -(d * m);
      -m
  }

  function HalfUpNat(n: int, d: int): (r: int)
    requires n >= 0 && d > 0
    ensures r >= 0
    ensures -d <= 2 * (n - d * r) <= d
  {
    var q, rest := n / d, n % d;
    assert d * (q + 1) == d * q + d;
    if 2 * rest < d then q else q + 1
  }

  lemma MulLe(d: int, a: int, b: int)
    requires d >= 0 && a <= b
    ensures d * a <= d * b
  {}

  /** Two nearest integers are one, or neighbours of a tie. */
  lemma NearestTwo(n: int, d: int, q: int, r: int)
    requires d > 0 && -d <= 2 * (n - d * q) <= d && -d <= 2 * (n - d * r) <= d
    ensures q == r || (q == r + 1 && 2 * (n - d * r) == d && 2 * (n - d * q) == -d)
      || (r == q + 1 && 2 * (n - d * q) == d && 2 * (n - d * r) == -d)
  {
    if q > r {
      OneApart(n, d, r, q);
    } else if q < r {
      OneApart(n, d, q, r);
    }
  }

  lemma OneApart(n: int, d: int, q: int, r: int)
    requires d > 0 && q < r && 2 * (n - d * q) <= d && -d <= 2 * (n - d * r)
    ensures r == q + 1 && 2 * (n - d * q) == d && 2 * (n - d * r) == -d
  {
    assert d * (q + 1) == d * q + d && d * (q + 2) == d * q + 2 * d;
    MulLe(d, q + 1, r);
    if r >= q + 2 {
      MulLe(d, q + 2, r);
    }
  }

  lemma HalfEvenTies(n: int, d: int)
    requires d > 0
    ensures var r := HalfEven(n, d); 2 * (n - d * r) == d || 2 * (n - d * r) == -d ==> r % 2 == 0
  {
    var q := n / d;
    assert d * (q + 1) == d * q + d;
  }

  /** ROUND_HALF_EVEN gives the nearest integer, and of two the even one. */
  lemma HalfEvenIs(n: int, d: int, r: int)
    requires d > 0
    ensures HalfEven(n, d) == r <==>
      -d <= 2 * (n - d * r) <= d && (2 * (n - d * r) == d || 2 * (n - d * r) == -d ==> r % 2 == 0)
  {
    HalfEvenTies(n, d);
    hide HalfEven;
    if -d <= 2 * (n - d * r) <= d {
      NearestTwo(n, d, HalfEven(n, d), r);
    }
  }

  lemma HalfUpTies(n: int, d: int)
    requires d > 0
    ensures var r := HalfUp(n, d); if n >= 0 then 2 * (n - d * r) < d else 2 * (n - d * r) > -d
  {
    HalfUpNatTies(if n >= 0 then n else -n, d);
    hide HalfUpNat;
    if n < 0 {
      var m := HalfUpNat(-n, d);
      assert d * -m == -(d * m);
    }
  }

  lemma HalfUpNatTies(n: int, d: int)
    requires n >= 0 && d > 0
    ensures 2 * (n - d * HalfUpNat(n, d)) < d
  {
    var q := n / d;
    assert d * (q + 1) == d * q + d;
  }

  /** ROUND_HALF_UP gives the nearest integer, and of two the one further from zero. */
  lemma HalfUpIs(n: int, d: int, r: int)
    requires d > 0
    ensures HalfUp(n, d) == r <==>
      -d <= 2 * (n - d * r) <= d && if n >= 0 then 2 * (n - d * r) < d else 2 * (n - d * r) > -d
  {
    HalfUpTies(n, d);
    hide HalfUp;
    if -d <= 2 * (n - d * r) <= d {
      NearestTwo(n, d, HalfUp(n, d), r);
    }
  }

  /** A whole quotient is never moved by rounding, and rounding never passes a whole bound. */
  lemma {:induction false} HalfEvenBounds(n: int, d: int, k: int)
    requires d > 0
    ensures n <= k * d ==> HalfEven(n, d) <= k
    ensures n >= k * d ==> HalfEven(n, d) >= k
  {
    var r := HalfEven(n, d);
    if r > k {
      MulLe(d, k + 1, r);
      assert d * (k + 1) == k * d + d;
    } else if r < k {
      MulLe(d, r, k - 1);
      assert d * (k - 1) == k * d - d;
    }
  }
}

/** Python's order on strings. */
module TextOrder {
  /** Code-point lexicographic order, as used by `min` and `max` on strings. */
  predicate Less(a: string, b: string) {
    b != "" && (a == "" || a[0] < b[0] || (a[0] == b[0] && Less(a[1..], b[1..])))
  }

  /** The texts agree up to some place, where `a` ends or has the smaller character. */
  predicate DiffersAt(a: string, b: string, k: nat) {
    k <= |a| && k < |b| && a[..k] == b[..k] && (k == |a| || a[k] < b[k])
  }

  lemma {:induction false} LessIff(a: string, b: string)
    ensures Less(a, b) <==> exists k: nat :: DiffersAt(a, b, k)
  {
    if a == "" || b == "" || a[0] != b[0] {
      if b != "" && (a == "" || a[0] < b[0]) {
        assert DiffersAt(a, b, 0);
      }
      if k: nat :| DiffersAt(a, b, k) {
        FirstDiffers(a, b, k);
      }
    } else {
      LessIff(a[1..], b[1..]);
      if k: nat :| DiffersAt(a[1..], b[1..], k) {
        DiffersLater(a, b, k + 1);
      }
      if k: nat :| DiffersAt(a, b, k) {
        FirstDiffers(a, b, k);
        DiffersLater(a, b, k);
      }
    }
  }

  lemma FirstDiffers(a: string, b: string, k: nat)
    requires DiffersAt(a, b, k)
    ensures b != "" && (k == 0 ==> a == "" || a[0] < b[0]) && (k > 0 ==> a != "" && a[0] == b[0])
  {
    if k > 0 {
      assert a[..k][0] == b[..k][0];
    }
  }

  lemma DiffersLater(a: string, b: string, k: nat)
    requires a != "" && b != "" && a[0] == b[0] && k > 0
    ensures DiffersAt(a, b, k) <==> DiffersAt(a[1..], b[1..], k - 1)
  {
    if k <= |a| && k < |b| {
      assert a[..k] == [a[0]] + a[1..][..k - 1] && b[..k] == [b[0]] + b[1..][..k - 1];
      assert a[..k][1..] == a[1..][..k - 1] && b[..k][1..] == b[1..][..k - 1];
    }
  }

  lemma {:induction false} LessIrreflexive(a: string)
    ensures !Less(a, a)
  {
    if a != "" {
      LessIrreflexive(a[1..]);
    }
  }

  lemma {:induction false} LessTransitive(a: string, b: string, c: string)
    requires Less(a, b) && Less(b, c)
    ensures Less(a, c)
  {
    if a != "" && a[0] == b[0] == c[0] {
      LessTransitive(a[1..], b[1..], c[1..]);
    }
  }

  lemma {:induction false} LessTotal(a: string, b: string)
    requires a != b
    ensures Less(a, b) || Less(b, a)
  {
    if a != "" && b != "" && a[0] == b[0] {
      assert a == [a[0]] + a[1..] && b == [b[0]] + b[1..];
      LessTotal(a[1..], b[1..]);
    }
  }
}

/** The issue types the audit tells apart. */
module Issues {
  datatype IssueType =
    | DuplicateInvoice | DuplicateBill | DuplicateCreditNote
    | CapitalItemReview | LowCostFixedAsset
    | PrepaymentReview
    | UnusualPayment | AmountOutlier | MisallocatedItem
    | MissingAccrual
    | OtherIssue(name: string)

  predicate IsDuplicate(t: IssueType) {
    t == DuplicateInvoice || t == DuplicateBill || t == DuplicateCreditNote
  }
}
