/** Which documents are candidates for an amount outlier, and with which figures, told from the documents of
    their contact. */
module OutlierEvidence {
  import opened Wrappers
  import opened Documents
  import opened Grouping
  import opened Median
  import opened AmountOutliers

  // ----- The documents of one contact -------------------------------------------------------------

  /** The contact id that stands for a document's own, if it has one. */
  function IdOf(alias: map<string, string>, d: Doc): string {
    if d.contactId in alias then alias[d.contactId] else d.contactId
  }

  /** One id after merging duplicates, or without ids one name. The last two cases are an id that spells out a
      name. */
  predicate OneCounterparty(alias: map<string, string>, x: Doc, y: Doc) {
    var a, b := IdOf(alias, x), IdOf(alias, y);
    if a != "" && b != "" then a == b
    else if a == "" && b == "" then x.vendorName == y.vendorName
    else if a == "" then b == "name:" + x.vendorName
    else a == "name:" + y.vendorName
  }

  /** Two documents of positive amount are measured against each other exactly when they have one
      counterparty. */
  lemma SameGroupIff(alias: map<string, string>, x: Doc, y: Doc)
    ensures (ContactOf(alias)(x).Some? && ContactOf(alias)(x) == ContactOf(alias)(y)) <==>
      x.amount > 0 && y.amount > 0 && OneCounterparty(alias, x, y)
  {
    assert ("name:" + x.vendorName)[5..] == x.vendorName && ("name:" + y.vendorName)[5..] == y.vendorName;
  }

  /** The documents a document is measured against, itself included. */
  function Peers(txs: seq<Doc>, alias: map<string, string>, d: Doc): seq<Doc> {
    if txs == [] then []
    else
      (if txs[0].amount > 0 && OneCounterparty(alias, txs[0], d) then [txs[0]] else []) + Peers(txs[1..], alias, d)
  }

  lemma {:induction false} PeersAreGroup(txs: seq<Doc>, alias: map<string, string>, d: Doc)
    requires d.amount > 0
    ensures ContactOf(alias)(d).Some?
    ensures Bucket(txs, ContactOf(alias), ContactOf(alias)(d).value) == Peers(txs, alias, d)
  {
    if txs != [] {
      PeersAreGroup(txs[1..], alias, d);
      SameGroupIff(alias, txs[0], d);
      hide OneCounterparty, ContactOf;
    }
  }

  // ----- Candidates ------------------------------------------------------------------------------

  /** At least the multiple of the median amount, and big enough to matter. */
  predicate StandsOut(d: Doc, usual: int, s: Settings) {
    d.amount >= s.minAmount && 2 * d.amount * s.multiple.den >= usual * s.multiple.num
  }

  lemma {:induction false} AmongIff(docs: seq<Doc>, group: seq<Doc>, usual: int, s: Settings, c: Outlier)
    ensures c in OutliersAmong(docs, group, usual, s) <==>
      c.doc in docs && StandsOut(c.doc, usual, s) && c == CandidateOf(c.doc, group, usual)
  {
    hide Dominant;
    if docs != [] {
      AmongIff(docs[..|docs| - 1], group, usual, s, c);
      assert docs == docs[..|docs| - 1] + [docs[|docs| - 1]];
    }
  }

  lemma {:induction false} OfSomeGroup(
    txs: seq<Doc>, alias: map<string, string>, s: Settings, order: seq<string>, c: Outlier)
    ensures c in AllOutliers(txs, alias, s, order) <==>
      exists k :: k in order && c in OutliersOf(Bucket(txs, ContactOf(alias), k), s)
  {
    hide OutliersOf, Bucket, ContactOf;
    if order != [] {
      var init, k := order[..|order| - 1], order[|order| - 1];
      OfSomeGroup(txs, alias, s, init, c);
      assert order == init + [k] && k in order;
      assert forall j :: j in order <==> j in init || j == k;
    }
  }

  lemma GroupPositive(group: seq<Doc>)
    requires group != [] && forall x :: x in group ==> x.amount > 0
    ensures Twice(Amounts(group)) > 0
  {
    var amounts := Amounts(group);
    SortAscending(amounts);
    var s := Sort(amounts);
    forall i | 0 <= i < |s|
      ensures s[i] > 0
    {
      assert s[i] in multiset(s) && s[i] in amounts;
      var j :| 0 <= j < |amounts| && amounts[j] == s[i];
      assert group[j] in group;
    }
    hide Sort;
  }

  /** The candidates of one contact. */
  lemma OfGroup(group: seq<Doc>, s: Settings, sorted: seq<int>, c: Outlier)
    requires group != [] && (forall x :: x in group ==> x.amount > 0)
    requires Ascending(sorted) && multiset(sorted) == multiset(Amounts(group))
    ensures sorted != []
    ensures c in OutliersOf(group, s) <==>
      && |group| >= s.minTxns && c.doc in group && StandsOut(c.doc, Middle(sorted), s)
      && c == CandidateOf(c.doc, group, Middle(sorted))
  {
    GroupPositive(group);
    MedianIs(Amounts(group), sorted);
    AmongIff(group, group, Twice(Amounts(group)), s, c);
    hide OutliersAmong, Twice, Middle, StandsOut, CandidateOf, Ascending;
  }

  /** What the candidate says of its document: the middle of the amounts of its peers, how many they are, and their
      most common account and tax code. */
  predicate Figures(c: Outlier, peers: seq<Doc>, sorted: seq<int>) {
    && sorted != [] && c.twiceMedian == Middle(sorted) && c.contactCount == |peers|
    && c.usualAccount == Dominant(seq(|peers|, i requires 0 <= i < |peers| => peers[i].accountCode))
    && c.usualTax == Dominant(seq(|peers|, i requires 0 <= i < |peers| => peers[i].taxCode))
  }

  lemma OwnGroup(txs: seq<Doc>, alias: map<string, string>, d: Doc)
    requires d in txs && d.amount > 0
    ensures ContactOf(alias)(d).Some? && ContactOf(alias)(d).value in KeysInOrder(txs, ContactOf(alias))
    ensures d in Bucket(txs, ContactOf(alias), ContactOf(alias)(d).value)
  {
    var i :| 0 <= i < |txs| && txs[i] == d;
    KeysAre(txs, ContactOf(alias), ContactOf(alias)(d).value);
    BucketMember(txs, ContactOf(alias), ContactOf(alias)(d).value, i);
  }

  lemma KeyOfMember(txs: seq<Doc>, alias: map<string, string>, d: Doc, k: string)
    requires d in Bucket(txs, ContactOf(alias), k)
    ensures d in txs && d.amount > 0 && ContactOf(alias)(d) == Some(k)
  {}

  /** A document is a candidate exactly when it is positive, has enough peers and stands out among them; the
      candidate gives the figures of its peers. `sorted` are the amounts of the peers by size. */
  lemma CandidateIff(txs: seq<Doc>, alias: map<string, string>, s: Settings, c: Outlier, sorted: seq<int>)
    requires Ascending(sorted) && multiset(sorted) == multiset(Amounts(Peers(txs, alias, c.doc)))
    ensures c in AllOutliers(txs, alias, s, KeysInOrder(txs, ContactOf(alias))) <==>
      && c.doc in txs && c.doc.amount > 0 && |Peers(txs, alias, c.doc)| >= s.minTxns
      && Figures(c, Peers(txs, alias, c.doc), sorted) && StandsOut(c.doc, c.twiceMedian, s)
  {
    var d, order, key := c.doc, KeysInOrder(txs, ContactOf(alias)), ContactOf(alias);
    OfSomeGroup(txs, alias, s, order, c);
    if d in txs && d.amount > 0 {
      OwnGroup(txs, alias, d);
      PeersAreGroup(txs, alias, d);
      CandidateOfOwn(txs, alias, s, c, sorted);
    }
    if k :| k in order && c in OutliersOf(Bucket(txs, key, k), s) {
      CandidateHasKey(txs, alias, s, c, k);
    }
    hide Bucket, ContactOf, OutliersOf, KeysInOrder, Figures, StandsOut, Ascending;
  }

  lemma CandidateHasKey(txs: seq<Doc>, alias: map<string, string>, s: Settings, c: Outlier, k: string)
    requires c in OutliersOf(Bucket(txs, ContactOf(alias), k), s)
    ensures c.doc in txs && c.doc.amount > 0 && ContactOf(alias)(c.doc) == Some(k)
  {
    var group := Bucket(txs, ContactOf(alias), k);
    AmongIff(group, group, Twice(Amounts(group)), s, c);
    hide Bucket, OutliersAmong, Twice, StandsOut, CandidateOf;
    KeyOfMember(txs, alias, c.doc, k);
  }

  lemma CandidateOfOwn(txs: seq<Doc>, alias: map<string, string>, s: Settings, c: Outlier, sorted: seq<int>)
    requires c.doc in txs && c.doc.amount > 0
    requires Ascending(sorted) && multiset(sorted) == multiset(Amounts(Peers(txs, alias, c.doc)))
    ensures c in OutliersOf(Peers(txs, alias, c.doc), s) <==>
      && |Peers(txs, alias, c.doc)| >= s.minTxns
      && Figures(c, Peers(txs, alias, c.doc), sorted) && StandsOut(c.doc, c.twiceMedian, s)
  {
    var peers := Peers(txs, alias, c.doc);
    PeersAreGroup(txs, alias, c.doc);
    OwnGroup(txs, alias, c.doc);
    forall x | x in peers
      ensures x.amount > 0
    {
      KeyOfMember(txs, alias, x, ContactOf(alias)(c.doc).value);
    }
    hide Bucket, ContactOf, OutliersOf, Peers, StandsOut, Dominant, Middle, Ascending;
    OfGroup(peers, s, sorted, c);
  }

  // ----- The most common value ---------------------------------------------------------------------

  /** Of equally common values the one that appears first is the usual one: a rival appears only after it. */
  lemma FirstOfTies(xs: seq<string>, y: string)
    requires Dominant(xs).Some? && y in xs && y != "" && y != Dominant(xs).value
    requires Count(xs, y) == Count(xs, Dominant(xs).value)
    ensures exists i :: 0 <= i < |xs| && xs[i] == Dominant(xs).value && y !in xs[..i]
  {
    var ks := KeysInOrder(xs, Named);
    KeysAre(xs, Named, y);
    var j :| 0 <= j < |ks| && ks[j] == y;
    var i := EarliestMost(ks, xs, j);
    KeysByAppearance(xs, i, j);
  }

  /** Of the most common values the first listed is taken. */
  lemma {:induction false} EarliestMost(ks: seq<string>, xs: seq<string>, j: nat) returns (i: nat)
    requires j < |ks| && Count(xs, ks[j]) == Count(xs, MostCommon(ks, xs)) && ks[j] != MostCommon(ks, xs)
    ensures i < j && ks[i] == MostCommon(ks, xs)
  {
    MostCommonIsMost(ks, xs);
    var init, last := ks[..|ks| - 1], ks[|ks| - 1];
    MostCommonIsMost(init, xs);
    hide Count;
    if j < |init| {
      assert ks[j] in init;
      i := EarliestMost(init, xs, j);
    } else {
      var x := MostCommon(init, xs);
      i :| 0 <= i < |init| && init[i] == x;
    }
  }

  /** The keys are listed by first appearance. */
  lemma {:induction false} KeysByAppearance(xs: seq<string>, i: nat, j: nat)
    requires i < j < |KeysInOrder(xs, Named)|
    ensures var ks := KeysInOrder(xs, Named);
      exists p :: 0 <= p < |xs| && xs[p] == ks[i] && ks[j] !in xs[..p]
  {
    var ks, n := KeysInOrder(xs, Named), |xs| - 1;
    var init := KeysInOrder(xs[..n], Named);
    if j < |init| {
      KeysByAppearance(xs[..n], i, j);
      var p :| 0 <= p < n && xs[..n][p] == ks[i] && ks[j] !in xs[..n][..p];
      assert xs[..n][..p] == xs[..p];
    } else {
      KeysAre(xs[..n], Named, ks[i]);
      var p :| 0 <= p < n && Named(xs[..n][p]) == Some(ks[i]);
      KeysAre(xs[..n], Named, ks[j]);
      assert ks[j] != "" && ks[j] !in init;
      assert forall q :: 0 <= q < p ==> xs[..n][q] == xs[q];
    }
  }

  ghost function PlacesOfValue(xs: seq<string>, x: string): set<int> {
    set i | 0 <= i < |xs| && xs[i] == x
  }

  lemma {:induction false} CountIsPlaces(xs: seq<string>, x: string)
    ensures Count(xs, x) == |PlacesOfValue(xs, x)|
  {
    if xs == [] {
      assert PlacesOfValue(xs, x) == {};
    } else {
      var n := |xs| - 1;
      CountIsPlaces(xs[..n], x);
      assert PlacesOfValue(xs, x) == PlacesOfValue(xs[..n], x) + if xs[n] == x then {n} else {};
    }
  }
}
