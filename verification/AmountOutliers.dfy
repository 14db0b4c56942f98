/** Amount outliers against a contact's own history (`find_amount_outlier_candidates`). */
module AmountOutliers {
  import opened Wrappers
  import opened Rounding
  import opened Documents
  import opened Grouping
  import opened Median
  import opened ContactAlias

  datatype Settings = Settings(minTxns: int, multiple: Ratio, minAmount: int)

  /** `twiceMedian` is twice the contact's usual amount. */
  datatype Outlier = Outlier(
    doc: Doc, twiceMedian: int, contactCount: int, usualAccount: Option<string>, usualTax: Option<string>)

  // ----- The most common value -----------------------------------------------------------------

  function Count(xs: seq<string>, x: string): nat {
    if xs == [] then 0 else Count(xs[..|xs| - 1], x) + if xs[|xs| - 1] == x then 1 else 0
  }

  /** The first of `ks` that occurs most often in `xs`. */
  function MostCommon(ks: seq<string>, xs: seq<string>): (x: string)
    requires ks != []
    ensures x in ks
  {
    var last := ks[|ks| - 1];
    if |ks| == 1 then last
    else
      var x := MostCommon(ks[..|ks| - 1], xs);
      if Count(xs, last) > Count(xs, x) then last else x
  }

  function Named(x: string): Option<string> {
    if x == "" then None else Some(x)
  }

  /** `_dominant`: `Counter` keeps values in order of appearance and favours the first of a tie. */
  function Dominant(xs: seq<string>): Option<string> {
    var ks := KeysInOrder(xs, Named);
    if ks == [] then None else Some(MostCommon(ks, xs))
  }

  lemma {:induction false} MostCommonIsMost(ks: seq<string>, xs: seq<string>)
    requires ks != []
    ensures forall k :: k in ks ==> Count(xs, k) <= Count(xs, MostCommon(ks, xs))
  {
    if |ks| > 1 {
      MostCommonIsMost(ks[..|ks| - 1], xs);
      assert ks == ks[..|ks| - 1] + [ks[|ks| - 1]];
    }
    hide Count;
  }

  /** The usual value is one that is present and that no other present value outnumbers; there is none exactly
      when no value is present. */
  lemma DominantMeans(xs: seq<string>)
    ensures Dominant(xs).None? <==> forall i :: 0 <= i < |xs| ==> xs[i] == ""
    ensures Dominant(xs).Some? ==>
      var x := Dominant(xs).value;
      x in xs && x != "" && forall y :: y in xs && y != "" ==> Count(xs, y) <= Count(xs, x)
  {
    hide Count, MostCommon, KeysInOrder;
    var ks := KeysInOrder(xs, Named);
    forall y
      ensures y in ks <==> y in xs && y != ""
    {
      KeysAre(xs, Named, y);
    }
    if ks == [] {
      assert forall i :: 0 <= i < |xs| ==> xs[i] in xs;
    } else {
      assert ks[0] in ks;
      MostCommonIsMost(ks, xs);
    }
  }

  function AccountsOf(docs: seq<Doc>): (xs: seq<string>)
    ensures |xs| == |docs|
  {
    seq(|docs|, i requires 0 <= i < |docs| => docs[i].accountCode)
  }

  function TaxCodesOf(docs: seq<Doc>): (xs: seq<string>)
    ensures |xs| == |docs|
  {
    seq(|docs|, i requires 0 <= i < |docs| => docs[i].taxCode)
  }

  /** `_contact_key` with the alias, for positive amounts only. */
  function ContactOf(alias: map<string, string>): Doc -> Option<string> {
    (d: Doc) =>
      if d.amount <= 0 then None
      else
        var canonical := Canonical(alias, d.contactId);
        Some(if canonical != "" then canonical else "name:" + d.vendorName)
  }

  function Amounts(docs: seq<Doc>): (xs: seq<int>)
    ensures |xs| == |docs|
    ensures forall i :: 0 <= i < |docs| ==> xs[i] == docs[i].amount
  {
    seq(|docs|, i requires 0 <= i < |docs| => docs[i].amount)
  }

  /** At least `multiple` times the usual amount, and big enough to matter. */
  predicate IsOutlier(amount: int, twiceMedian: int, s: Settings) {
    2 * amount * s.multiple.den >= twiceMedian * s.multiple.num && amount >= s.minAmount
  }

  /** The candidate for one document of a contact's group. */
  function CandidateOf(d: Doc, group: seq<Doc>, twiceMedian: int): Outlier {
    Outlier(d, twiceMedian, |group|, Dominant(AccountsOf(group)), Dominant(TaxCodesOf(group)))
  }

  function OutliersAmong(docs: seq<Doc>, group: seq<Doc>, twiceMedian: int, s: Settings): seq<Outlier> {
    if docs == [] then []
    else
      var d := docs[|docs| - 1];
      OutliersAmong(docs[..|docs| - 1], group, twiceMedian, s)
      + if IsOutlier(d.amount, twiceMedian, s) then [CandidateOf(d, group, twiceMedian)] else []
  }

  /** The candidates of one contact's documents. */
  function OutliersOf(group: seq<Doc>, s: Settings): seq<Outlier> {
    if |group| < s.minTxns || group == [] || Twice(Amounts(group)) <= 0 then []
    else OutliersAmong(group, group, Twice(Amounts(group)), s)
  }

  function AllOutliers(txs: seq<Doc>, alias: map<string, string>, s: Settings, order: seq<string>): seq<Outlier> {
    if order == [] then
      []
    else
      AllOutliers(txs, alias, s, order[..|order| - 1])
      + OutliersOf(Bucket(txs, ContactOf(alias), order[|order| - 1]), s)
  }

  /** The candidates contact by contact, in order of first appearance. */
  method FindAmountOutliers(txs: seq<Doc>, alias: map<string, string>, s: Settings)
    returns (order: seq<string>, candidates: seq<Outlier>)
    ensures order == KeysInOrder(txs, ContactOf(alias))
    ensures candidates == AllOutliers(txs, alias, s, order)
  {
    hide Bucket, OutliersAmong, IsOutlier, ContactOf, Sort, KeysInOrder;
    var groups;
    order, groups := GroupBy(txs, ContactOf(alias));
    candidates := [];
    for i := 0 to |order|
      invariant candidates == AllOutliers(txs, alias, s, order[..i])
    {
      assert order[..i + 1][..i] == order[..i];
      var group := groups[order[i]];
      if |group| >= s.minTxns {
        var usual := Twice(Amounts(group));
        if usual > 0 {
          var more := ScanGroup(group, usual, s);
          candidates := candidates + more;
        }
      }
    }
    assert order[..|order|] == order;
  }

  method ScanGroup(group: seq<Doc>, usual: int, s: Settings) returns (found: seq<Outlier>)
    ensures found == OutliersAmong(group, group, usual, s)
  {
    hide Dominant;
    found := [];
    for j := 0 to |group|
      invariant found == OutliersAmong(group[..j], group, usual, s)
    {
      assert group[..j + 1][..j] == group[..j];
      if IsOutlier(group[j].amount, usual, s) {
        found := found + [CandidateOf(group[j], group, usual)];
      }
    }
    assert group[..|group|] == group;
  }

  // ----- At most half can be outliers ----------------------------------------------------------

  function CountAbove(xs: seq<int>, t: int): nat {
    if xs == [] then 0 else (if 2 * xs[0] > t then 1 else 0) + CountAbove(xs[1..], t)
  }

  lemma {:induction false} CountInserted(x: int, xs: seq<int>, t: int)
    ensures CountAbove(Insert(x, xs), t) == CountAbove(xs, t) + if 2 * x > t then 1 else 0
  {
    if xs == [] || x <= xs[0] {
      assert ([x] + xs)[1..] == xs;
    } else {
      CountInserted(x, xs[1..], t);
      assert ([xs[0]] + Insert(x, xs[1..]))[1..] == Insert(x, xs[1..]);
    }
  }

  lemma {:induction false} CountSorted(xs: seq<int>, t: int)
    ensures CountAbove(Sort(xs), t) == CountAbove(xs, t)
  {
    if xs != [] {
      CountSorted(xs[1..], t);
      CountInserted(xs[0], Sort(xs[1..]), t);
    }
  }

  lemma {:induction false} CountSkips(xs: seq<int>, m: nat, t: int)
    requires m <= |xs| && forall i :: 0 <= i < m ==> 2 * xs[i] <= t
    ensures CountAbove(xs, t) <= |xs| - m
  {
    if xs != [] {
      CountSkips(xs[1..], if m > 0 then m - 1 else 0, t);
    }
  }

  lemma LowerHalf(s: seq<int>, t: int)
    requires Ascending(s) && s != []
    requires t == if |s| % 2 == 1 then 2 * s[|s| / 2] else s[|s| / 2 - 1] + s[|s| / 2]
    ensures 2 * CountAbove(s, t) <= |s|
  {
    var m := if |s| % 2 == 1 then |s| / 2 + 1 else |s| / 2;
    forall i | 0 <= i < m
      ensures 2 * s[i] <= t
    {
      assert i < m - 1 ==> s[i] <= s[m - 1];
      assert |s| % 2 == 0 ==> s[m - 1] <= s[m];
    }
    CountSkips(s, m, t);
  }

  /** No more than half of any list lies strictly above its median. */
  lemma HalfAboveMedian(xs: seq<int>)
    requires xs != []
    ensures 2 * CountAbove(xs, Twice(xs)) <= |xs|
  {
    SortAscending(xs);
    TwiceIs(xs);
    CountSorted(xs, Twice(xs));
    hide Sort, Ascending, CountAbove, Twice;
    LowerHalf(Sort(xs), Twice(xs));
  }

  lemma TwiceIs(xs: seq<int>)
    requires xs != []
    ensures var s := Sort(xs);
      |s| == |xs| && Twice(xs) == if |s| % 2 == 1 then 2 * s[|s| / 2] else s[|s| / 2 - 1] + s[|s| / 2]
  {
    hide Sort;
  }

  lemma ScaledUp(a: int, t: int, num: int, den: int)
    requires t > 0 && num > den > 0 && a * den >= t * num
    ensures a > t
  {
    assert (a - t) * den >= t * (num - den);
  }

  lemma AboveMedian(amount: int, twiceMedian: int, s: Settings)
    requires s.multiple.num > s.multiple.den && twiceMedian > 0 && IsOutlier(amount, twiceMedian, s)
    ensures 2 * amount > twiceMedian
  {
    ScaledUp(2 * amount, twiceMedian, s.multiple.num, s.multiple.den);
  }

  lemma {:induction false} CountSnoc(xs: seq<int>, x: int, t: int)
    ensures CountAbove(xs + [x], t) == CountAbove(xs, t) + if 2 * x > t then 1 else 0
  {
    if xs == [] {
      assert ([] + [x])[1..] == [];
    } else {
      CountSnoc(xs[1..], x, t);
      assert (xs + [x])[1..] == xs[1..] + [x];
    }
  }

  lemma {:induction false} OutliersAreAbove(docs: seq<Doc>, group: seq<Doc>, twiceMedian: int, s: Settings)
    requires s.multiple.num > s.multiple.den && twiceMedian > 0
    ensures |OutliersAmong(docs, group, twiceMedian, s)| <= CountAbove(Amounts(docs), twiceMedian)
  {
    if docs != [] {
      var init, d := docs[..|docs| - 1], docs[|docs| - 1];
      OutliersAreAbove(init, group, twiceMedian, s);
      assert Amounts(docs) == Amounts(init) + [d.amount];
      CountSnoc(Amounts(init), d.amount, twiceMedian);
      if IsOutlier(d.amount, twiceMedian, s) {
        AboveMedian(d.amount, twiceMedian, s);
      }
    }
  }

  /** With a multiple above one, at most half of a contact's positive transactions are candidates. */
  lemma AtMostHalfAreOutliers(txs: seq<Doc>, alias: map<string, string>, s: Settings, contact: string)
    requires s.multiple.num > s.multiple.den
    ensures var group := Bucket(txs, ContactOf(alias), contact);
      2 * |OutliersOf(group, s)| <= |group|
  {
    var group := Bucket(txs, ContactOf(alias), contact);
    if OutliersOf(group, s) != [] {
      hide Twice, Bucket, OutliersAmong, CountAbove;
      HalfAboveMedian(Amounts(group));
      OutliersAreAbove(group, group, Twice(Amounts(group)), s);
    }
  }
}
