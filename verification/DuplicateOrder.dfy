/** The duplicate report reports no pair twice, and does not depend on the order of the ledger feed. */
module DuplicateOrder {
  import opened Wrappers
  import opened Documents
  import opened Grouping
  import opened Median
  import opened PairSweep
  import opened Duplicates

  // ----- No pair twice -------------------------------------------------------------------------

  predicate Names(f: Flag, x: Doc, y: Doc) {
    (f.docId == x.id && f.duplicateOf == y.id) || (f.docId == y.id && f.duplicateOf == x.id)
  }

  /** The two flags of a pair name its two documents, once each way round. */
  predicate IsPairOf(fs: seq<Flag>, a: Doc, b: Doc) {
    |fs| == 2 && fs[1].docId == fs[0].duplicateOf && fs[1].duplicateOf == fs[0].docId && Names(fs[0], a, b)
  }

  ghost predicate NamesPair(check: Check) {
    forall a, b :: check(a, b) == [] || IsPairOf(check(a, b), a, b)
  }

  lemma DuplicatesNamePairs(txs: seq<Doc>, s: Settings)
    ensures NamesPair(ReferenceCheck(txs, s))
  {
    hide CadenceFor, Judge, PassesGates, FirstIsOriginal, DuplicateTypeOf;
  }

  lemma FlagNames(window: int, check: Check, x: Doc, y: Doc, f: Flag)
    requires NamesPair(check) && f in PairFlags(window, check, x, y)
    ensures Names(f, x, y)
  {
    var (a, b) := if x.day <= y.day then (x, y) else (y, x);
    assert check(a, b) != [] && IsPairOf(check(a, b), a, b);
  }

  lemma FlagsOfPairOnce(window: int, check: Check, x: Doc, y: Doc)
    requires NamesPair(check) && x.id != y.id
    ensures forall f :: multiset(PairFlags(window, check, x, y))[f] <= 1
    ensures var fs := PairFlags(window, check, x, y);
      forall f, g :: f in fs && g in fs && f.docId == g.docId ==> f == g
  {
    var (a, b) := if x.day <= y.day then (x, y) else (y, x);
    var fs := PairFlags(window, check, x, y);
    if fs != [] {
      assert check(a, b) == fs && IsPairOf(fs, a, b);
      assert fs == [fs[0], fs[1]] && fs[0] != fs[1];
    }
  }

  lemma NotAgain<K>(window: int, check: Check, key: Doc -> Option<K>, x: Doc, y: Doc, zs: seq<Doc>, f: Flag)
    requires NamesPair(check) && f in PairFlags(window, check, x, y)
    requires x.id != y.id && forall j :: 0 <= j < |zs| ==> zs[j].id != y.id
    ensures f !in FlagsWithLater(window, check, key, x, zs)
  {
    FlagNames(window, check, x, y, f);
    FlagOfLater(window, check, key, x, zs, f);
    hide PairFlags, NamesPair;
    forall j | 0 <= j < |zs|
      ensures f !in PairFlags(window, check, x, zs[j])
    {
      if f in PairFlags(window, check, x, zs[j]) {
        FlagNames(window, check, x, zs[j], f);
      }
    }
  }

  lemma {:induction false} OnceWithLater<K>(
    window: int, check: Check, key: Doc -> Option<K>, x: Doc, ys: seq<Doc>, f: Flag)
    requires NamesPair(check) && UniqueIds(ys) && forall j :: 0 <= j < |ys| ==> x.id != ys[j].id
    ensures FlagsWithLater(window, check, key, x, ys)[f] <= 1
  {
    if ys != [] {
      OnceWithLater(window, check, key, x, ys[1..], f);
      FlagsOfPairOnce(window, check, x, ys[0]);
      if f in PairFlags(window, check, x, ys[0]) {
        NotAgain(window, check, key, x, ys[0], ys[1..], f);
      }
    }
  }

  lemma LaterNamesFirst<K>(window: int, check: Check, key: Doc -> Option<K>, x: Doc, ys: seq<Doc>, f: Flag)
    requires NamesPair(check) && f in FlagsWithLater(window, check, key, x, ys)
    ensures f.docId == x.id || f.duplicateOf == x.id
  {
    FlagOfLater(window, check, key, x, ys, f);
    var j :| 0 <= j < |ys| && SameBlock(key, x, ys[j]) && f in PairFlags(window, check, x, ys[j]);
    FlagNames(window, check, x, ys[j], f);
  }

  lemma NotAmongOthers<K>(window: int, check: Check, key: Doc -> Option<K>, x: Doc, ys: seq<Doc>, f: Flag)
    requires NamesPair(check) && (f.docId == x.id || f.duplicateOf == x.id)
    requires forall j :: 0 <= j < |ys| ==> x.id != ys[j].id
    ensures f !in AllPairs(window, check, key, ys)
  {
    FlagOfPair(window, check, key, ys, f);
    hide PairFlags, NamesPair;
    forall i, j | 0 <= i < j < |ys|
      ensures f !in PairFlags(window, check, ys[i], ys[j])
    {
      if f in PairFlags(window, check, ys[i], ys[j]) {
        FlagNames(window, check, ys[i], ys[j], f);
      }
    }
  }

  lemma {:induction false} AllPairsOnce<K>(window: int, check: Check, key: Doc -> Option<K>, xs: seq<Doc>, f: Flag)
    requires NamesPair(check) && UniqueIds(xs)
    ensures AllPairs(window, check, key, xs)[f] <= 1
  {
    if xs != [] {
      AllPairsOnce(window, check, key, xs[1..], f);
      OnceWithLater(window, check, key, xs[0], xs[1..], f);
      hide NamesPair;
      if f in FlagsWithLater(window, check, key, xs[0], xs[1..]) {
        LaterNamesFirst(window, check, key, xs[0], xs[1..], f);
        NotAmongOthers(window, check, key, xs[0], xs[1..], f);
      }
    }
  }

  /** Of a search whose checks name their pairs, a document and its partner determine the flag, and the flag
      occurs once. */
  lemma OncePerPair<K>(window: int, check: Check, key: Doc -> Option<K>, txs: seq<Doc>, f: Flag, g: Flag)
    requires UniqueIds(txs) && NamesPair(check)
    requires f in AllPairs(window, check, key, txs) && g in AllPairs(window, check, key, txs)
    requires f.docId == g.docId && f.duplicateOf == g.duplicateOf
    ensures f == g && AllPairs(window, check, key, txs)[f] == 1
  {
    var i, j := PairBehind(window, check, key, txs, f);
    var k, l := PairBehind(window, check, key, txs, g);
    AllPairsOnce(window, check, key, txs, f);
    FlagsOfPairOnce(window, check, txs[i], txs[j]);
    hide PairFlags, AllPairs, NamesPair;
    SamePositions(txs, i, j, k, l, f, g);
  }

  lemma PairBehind<K>(window: int, check: Check, key: Doc -> Option<K>, txs: seq<Doc>, f: Flag) returns (i: nat, j: nat)
    requires NamesPair(check) && f in AllPairs(window, check, key, txs)
    ensures i < j < |txs| && SameBlock(key, txs[i], txs[j])
    ensures f in PairFlags(window, check, txs[i], txs[j]) && Names(f, txs[i], txs[j])
  {
    FlagOfPair(window, check, key, txs, f);
    i, j :| 0 <= i < j < |txs| && SameBlock(key, txs[i], txs[j]) && f in PairFlags(window, check, txs[i], txs[j]);
    FlagNames(window, check, txs[i], txs[j], f);
  }

  /** The two documents behind a flag of the report. */
  lemma DocumentsOf(txs: seq<Doc>, s: Settings, f: Flag) returns (i: nat, j: nat)
    requires f in AllDuplicates(txs, s)
    ensures i < j < |txs| && SameBlock(BlockKey, txs[i], txs[j])
    ensures f in PairFlags(s.window, ReferenceCheck(txs, s), txs[i], txs[j]) && Names(f, txs[i], txs[j])
  {
    DuplicatesNamePairs(txs, s);
    i, j := PairBehind(s.window, ReferenceCheck(txs, s), BlockKey, txs, f);
  }

  /** Each pair is reported once each way round: a document and its partner determine the flag, and the
      flag occurs once. */
  lemma EachPairOnce(txs: seq<Doc>, s: Settings, f: Flag, g: Flag)
    requires UniqueIds(txs) && f in AllDuplicates(txs, s) && g in AllDuplicates(txs, s)
    requires f.docId == g.docId && f.duplicateOf == g.duplicateOf
    ensures f == g && AllDuplicates(txs, s)[f] == 1
  {
    DuplicatesNamePairs(txs, s);
    OncePerPair(s.window, ReferenceCheck(txs, s), BlockKey, txs, f, g);
  }

  lemma SamePositions(txs: seq<Doc>, i: nat, j: nat, k: nat, l: nat, f: Flag, g: Flag)
    requires UniqueIds(txs) && i < j < |txs| && k < l < |txs|
    requires Names(f, txs[i], txs[j]) && Names(g, txs[k], txs[l])
    requires f.docId == g.docId && f.duplicateOf == g.duplicateOf
    ensures i == k && j == l
  {
    assert forall a, b :: 0 <= a < |txs| && 0 <= b < |txs| && txs[a].id == txs[b].id ==> a == b;
  }

  // ----- The order of the feed does not matter ---------------------------------------------------

  lemma {:induction false} BucketCounts<K(!new)>(xs: seq<Doc>, key: Doc -> Option<K>, k: K, x: Doc)
    ensures multiset(Bucket(xs, key, k))[x] == if key(x) == Some(k) then multiset(xs)[x] else 0
  {
    if xs != [] {
      BucketCounts(xs[1..], key, k, x);
      assert xs == [xs[0]] + xs[1..];
    }
  }

  lemma SameBuckets<K(!new)>(xs: seq<Doc>, ys: seq<Doc>, key: Doc -> Option<K>, k: K)
    requires multiset(xs) == multiset(ys)
    ensures multiset(Bucket(xs, key, k)) == multiset(Bucket(ys, key, k))
  {
    forall x
      ensures multiset(Bucket(xs, key, k))[x] == multiset(Bucket(ys, key, k))[x]
    {
      BucketCounts(xs, key, k, x);
      BucketCounts(ys, key, k, x);
    }
  }

  function Without(xs: seq<Doc>, j: nat): seq<Doc>
    requires j < |xs|
  {
    xs[..j] + xs[j + 1..]
  }

  lemma WithoutOne(xs: seq<Doc>, j: nat)
    requires j < |xs|
    ensures |Without(xs, j)| == |xs| - 1
    ensures multiset(xs) == multiset(Without(xs, j)) + multiset{xs[j]}
    ensures multiset(Days(xs)) == multiset(Days(Without(xs, j))) + multiset{xs[j].day}
  {
    assert xs == xs[..j] + [xs[j]] + xs[j + 1..];
    assert Days(xs) == Days(xs[..j]) + [xs[j].day] + Days(xs[j + 1..]);
    assert Days(Without(xs, j)) == Days(xs[..j]) + Days(xs[j + 1..]);
  }

  lemma {:induction false} SameDays(xs: seq<Doc>, ys: seq<Doc>)
    requires multiset(xs) == multiset(ys)
    ensures multiset(Days(xs)) == multiset(Days(ys))
    decreases |xs|
  {
    SameLength(xs, ys);
    if xs != [] {
      assert xs[0] in multiset(ys);
      var j :| 0 <= j < |ys| && ys[j] == xs[0];
      WithoutOne(xs, 0);
      WithoutOne(ys, j);
      SameRest(xs, ys, j);
      hide Without, Days;
      SameDays(Without(xs, 0), Without(ys, j));
    }
  }

  lemma SameRest(xs: seq<Doc>, ys: seq<Doc>, j: nat)
    requires xs != [] && j < |ys| && ys[j] == xs[0] && multiset(xs) == multiset(ys)
    ensures multiset(Without(xs, 0)) == multiset(Without(ys, j))
  {
    WithoutOne(xs, 0);
    WithoutOne(ys, j);
    hide Without, Days;
    assert multiset(Without(xs, 0)) == multiset(xs) - multiset{xs[0]};
    assert multiset(Without(ys, j)) == multiset(ys) - multiset{xs[0]};
  }

  lemma SameSortedDays(xs: seq<Doc>, ys: seq<Doc>)
    requires multiset(xs) == multiset(ys)
    ensures Sort(Days(xs)) == Sort(Days(ys)) && |xs| == |ys|
  {
    SameLength(xs, ys);
    SameDays(xs, ys);
    SortAscending(Days(xs));
    SortAscending(Days(ys));
    SameAscending(Sort(Days(xs)), Sort(Days(ys)));
  }

  /** The cadence a series teaches does not depend on the order of the feed. */
  lemma SameCadence(txs: seq<Doc>, feed: seq<Doc>, d: Doc)
    requires multiset(txs) == multiset(feed)
    ensures CadenceFor(txs, d) == CadenceFor(feed, d)
  {
    if BlockKey(d).Some? {
      var k := BlockKey(d).value;
      SameBuckets(txs, feed, BlockKey, k);
      SameBuckets(Bucket(txs, BlockKey, k), Bucket(feed, BlockKey, k), AmountKey, d.amount);
      SameSortedDays(
        Bucket(Bucket(txs, BlockKey, k), AmountKey, d.amount),
        Bucket(Bucket(feed, BlockKey, k), AmountKey, d.amount));
      hide Bucket, Sort, Days;
    }
  }

  /** Nothing but the mark of the likely original differs. */
  predicate SameButMark(f: Flag, g: Flag) {
    f.(likelyOriginal := None) == g.(likelyOriginal := None)
  }

  /** No rule but the position in the feed can tell the original: the same day, equally paid, and not
      posted on two different days. */
  predicate Tied(x: Doc, y: Doc) {
    && x.day == y.day && IsPaid(x) == IsPaid(y)
    && (x.postedDay.None? || y.postedDay.None? || x.postedDay == y.postedDay)
  }

  lemma SameSeries(txs: seq<Doc>, x: Doc, y: Doc)
    requires SameBlock(BlockKey, x, y) && x.amount == y.amount
    ensures CadenceFor(txs, x) == CadenceFor(txs, y)
  {
    hide Cadence, Bucket;
  }

  lemma CadenceNeedsOneAmount(x: Doc, y: Doc, c: Option<int>, c': Option<int>, s: Settings)
    requires x.amount != y.amount
    ensures CheckPair(x, y, c, s) == CheckPair(x, y, c', s)
  {
    hide PassesGates, FirstIsOriginal, DuplicateTypeOf, SameInvoiceNumber, MatchReferences, DifferentIdentifiers;
  }

  lemma SameBlockSameCheck(txs: seq<Doc>, x: Doc, y: Doc, s: Settings)
    requires SameBlock(BlockKey, x, y)
    ensures CheckPair(x, y, CadenceFor(txs, x), s) == CheckPair(x, y, CadenceFor(txs, y), s)
    ensures x.docType == y.docType
  {
    hide CheckPair, CadenceFor;
    if x.amount == y.amount {
      SameSeries(txs, x, y);
    } else {
      CadenceNeedsOneAmount(x, y, CadenceFor(txs, x), CadenceFor(txs, y), s);
    }
  }

  /** A tie is exactly when both ends call themselves the original. */
  lemma TiedMeans(x: Doc, y: Doc)
    requires x.day == y.day
    ensures Tied(x, y) <==> FirstIsOriginal(x, y) == FirstIsOriginal(y, x)
  {}

  lemma SameDayFlags(x: Doc, y: Doc, cadence: Option<int>, s: Settings, f: Flag) returns (g: Flag)
    requires x.docType == y.docType && x.day == y.day && x.id != y.id && f in CheckPair(x, y, cadence, s)
    ensures g in CheckPair(y, x, cadence, s) && SameButMark(f, g)
    ensures f in CheckPair(y, x, cadence, s) <==> f.tier != High || !Tied(x, y)
    ensures f.tier != High || !Tied(x, y) ==> f == g
  {
    SameDayVerdictIsSymmetric(x, y, cadence, s);
    TiedMeans(x, y);
    hide Judge, PassesGates, DuplicateTypeOf, Tied, FirstIsOriginal;
    var fs, gs := CheckPair(x, y, cadence, s), CheckPair(y, x, cadence, s);
    assert |fs| == 2 && |gs| == 2 && (f == fs[0] || f == fs[1]);
    assert f in gs <==> f == gs[0] || f == gs[1];
    g := if Tied(x, y) == (f == fs[0]) then gs[1] else gs[0];
  }

  /** A pair earns the same two flags seen from either end of the feed, but for the mark of a confirmed tie. */
  lemma PairEitherWay(window: int, txs: seq<Doc>, s: Settings, x: Doc, y: Doc, f: Flag) returns (g: Flag)
    requires SameBlock(BlockKey, x, y) && x.id != y.id
    requires f in PairFlags(window, ReferenceCheck(txs, s), x, y)
    ensures g in PairFlags(window, ReferenceCheck(txs, s), y, x) && SameButMark(f, g)
    ensures f in PairFlags(window, ReferenceCheck(txs, s), y, x) <==> f.tier != High || !Tied(x, y)
    ensures f.tier != High || !Tied(x, y) ==> f == g
  {
    if x.day != y.day {
      hide CheckPair;
      g := f;
      assert !Tied(x, y);
    } else {
      SameBlockSameCheck(txs, x, y, s);
      hide CheckPair, CadenceFor, Tied;
      g := SameDayFlags(x, y, CadenceFor(txs, y), s, f);
    }
  }

  lemma {:induction false} OnceInFeed(txs: seq<Doc>, d: Doc)
    requires UniqueIds(txs)
    ensures multiset(txs)[d] <= 1
  {
    if txs != [] {
      OnceInFeed(txs[1..], d);
      assert txs == [txs[0]] + txs[1..];
      assert d == txs[0] ==> d !in txs[1..];
    }
  }

  lemma TwiceInFeed(feed: seq<Doc>, a: nat, b: nat)
    requires a < b < |feed| && feed[a] == feed[b]
    ensures multiset(feed)[feed[a]] >= 2
  {
    assert feed == feed[..b] + [feed[b]] + feed[b + 1..];
    assert feed[a] in feed[..b];
  }

  /** Rearranging a feed keeps its ids unique. */
  lemma UniqueIdsRearranged(txs: seq<Doc>, feed: seq<Doc>)
    requires UniqueIds(txs) && multiset(txs) == multiset(feed)
    ensures UniqueIds(feed)
  {
    forall a, b | 0 <= a < b < |feed|
      ensures feed[a].id != feed[b].id
    {
      assert feed[a] in multiset(txs) && feed[b] in multiset(txs);
      OnceInFeed(txs, feed[a]);
      if feed[a] == feed[b] {
        TwiceInFeed(feed, a, b);
      }
    }
  }

  /** The two places of a reported pair in a feed. */
  lemma PlacesOf(txs: seq<Doc>, f: Flag, i: nat, j: nat, k: nat, l: nat)
    requires UniqueIds(txs) && i < |txs| && j < |txs| && k < l < |txs| && i != j
    requires Names(f, txs[k], txs[l]) && Names(f, txs[i], txs[j])
    ensures k == if i < j then i else j
    ensures l == if i < j then j else i
  {
    assert forall a, b :: 0 <= a < |txs| && 0 <= b < |txs| && txs[a].id == txs[b].id ==> a == b;
  }

  /** A search reports a flag that names a pair of one block exactly when the check of that pair does. */
  lemma InSearchIff<K>(window: int, check: Check, key: Doc -> Option<K>, txs: seq<Doc>, i: nat, j: nat, f: Flag)
    requires NamesPair(check) && UniqueIds(txs) && i < j < |txs|
    requires SameBlock(key, txs[i], txs[j]) && Names(f, txs[i], txs[j])
    ensures f in AllPairs(window, check, key, txs) <==> f in PairFlags(window, check, txs[i], txs[j])
  {
    FlagOfPair(window, check, key, txs, f);
    hide PairFlags, AllPairs, NamesPair, UniqueIds, SameBlock;
    if f in AllPairs(window, check, key, txs) {
      var k, l := PairBehind(window, check, key, txs, f);
      PlacesOf(txs, f, i, j, k, l);
    }
  }

  lemma InReportIff(txs: seq<Doc>, s: Settings, i: nat, j: nat, f: Flag)
    requires UniqueIds(txs) && i < j < |txs| && SameBlock(BlockKey, txs[i], txs[j]) && Names(f, txs[i], txs[j])
    ensures f in AllDuplicates(txs, s) <==> f in PairFlags(s.window, ReferenceCheck(txs, s), txs[i], txs[j])
  {
    DuplicatesNamePairs(txs, s);
    hide PairFlags, ReferenceCheck, BlockKey, SameBlock, UniqueIds, NamesPair;
    InSearchIff(s.window, ReferenceCheck(txs, s), BlockKey, txs, i, j, f);
  }

  /** When a rearranged feed reports the very same flag: always, unless the flag belongs to a confirmed tie
      whose two documents changed places. */
  lemma SameFlagIff(txs: seq<Doc>, feed: seq<Doc>, s: Settings, f: Flag, i: nat, j: nat, k: nat, l: nat)
    requires UniqueIds(txs) && multiset(txs) == multiset(feed) && f in AllDuplicates(txs, s)
    requires i < j < |txs| && Names(f, txs[i], txs[j])
    requires k < |feed| && l < |feed| && feed[k] == txs[i] && feed[l] == txs[j]
    ensures f in AllDuplicates(feed, s) <==> k < l || f.tier != High || !Tied(txs[i], txs[j])
  {
    var x, y := txs[i], txs[j];
    var a, b := DocumentsOf(txs, s, f);
    PlacesOf(txs, f, i, j, a, b);
    UniqueIdsRearranged(txs, feed);
    SameChecks(s.window, txs, feed, s, x, y);
    assert x.id != y.id && k != l;
    hide PairFlags, ReferenceCheck, Tied, AllDuplicates, BlockKey, UniqueIds;
    if k < l {
      InReportIff(feed, s, k, l, f);
    } else {
      var g := PairEitherWay(s.window, feed, s, x, y, f);
      InReportIff(feed, s, l, k, f);
    }
  }

  /** Feeding the same documents in another order gives the same report, pair by pair, except for which
      of two tied documents is marked as the original. */
  lemma OrderDoesNotMatter(txs: seq<Doc>, feed: seq<Doc>, s: Settings, f: Flag) returns (g: Flag)
    requires UniqueIds(txs) && multiset(txs) == multiset(feed) && f in AllDuplicates(txs, s)
    ensures g in AllDuplicates(feed, s) && SameButMark(f, g)
  {
    var i, j := DocumentsOf(txs, s, f);
    var k, l := FindBoth(txs, feed, i, j);
    SameChecks(s.window, txs, feed, s, txs[i], txs[j]);
    hide PairFlags, ReferenceCheck, SameBlock, AllDuplicates, BlockKey, UniqueIds;
    if k < l {
      g := f;
      ReportedAt(feed, s, k, l, g);
    } else {
      g := PairEitherWay(s.window, feed, s, txs[i], txs[j], f);
      ReportedAt(feed, s, l, k, g);
    }
  }

  /** Where two documents went. */
  lemma FindBoth(txs: seq<Doc>, feed: seq<Doc>, i: nat, j: nat) returns (k: nat, l: nat)
    requires UniqueIds(txs) && multiset(txs) == multiset(feed) && i < j < |txs|
    ensures k < |feed| && l < |feed| && k != l && feed[k] == txs[i] && feed[l] == txs[j]
    ensures txs[i].id != txs[j].id
  {
    assert txs[i] in multiset(feed) && txs[j] in multiset(feed);
    k :| 0 <= k < |feed| && feed[k] == txs[i];
    l :| 0 <= l < |feed| && feed[l] == txs[j];
  }

  function Twin(id: string): Doc {
    Doc(
      id, AccPay, 1, 12000, "supplier", "Supplier", "REF-1", "INV-7", "",
      Authorised, None, None, None, None, "", "", [])
  }

  const TWINS := [Twin("a"), Twin("b")]

  /** Nothing but the feed tells the two copies apart: whichever comes first is the one to keep. */
  lemma FeedDecidesOriginal(s: Settings) returns (f: Flag)
    requires s.window >= 0 && s.minConfidence <= 100
    ensures f in AllDuplicates(TWINS, s) && f.docId == "a" && f.likelyOriginal == Some(true)
    ensures f !in AllDuplicates([TWINS[1], TWINS[0]], s)
  {
    var x, y := TWINS[0], TWINS[1];
    f := OneSide(x, y, true, 100, High, 0);
    TwinsReported(s, f);
    assert multiset([y, x]) == multiset(TWINS);
    assert UniqueIds(TWINS);
    hide AllDuplicates, UniqueIds;
    SameFlagIff(TWINS, [y, x], s, f, 0, 1, 1, 0);
  }

  lemma TwinsReported(s: Settings, f: Flag)
    requires s.window >= 0 && s.minConfidence <= 100 && f == OneSide(TWINS[0], TWINS[1], true, 100, High, 0)
    ensures f in AllDuplicates(TWINS, s)
  {
    hide CadenceFor;
    var x, y := TWINS[0], TWINS[1];
    assert f in CheckPair(x, y, CadenceFor(TWINS, x), s);
    assert f in PairFlags(s.window, ReferenceCheck(TWINS, s), x, y);
    hide PairFlags, ReferenceCheck, AllDuplicates;
    ReportedAt(TWINS, s, 0, 1, f);
  }

  lemma ReportedAt(txs: seq<Doc>, s: Settings, i: nat, j: nat, f: Flag)
    requires i < j < |txs| && (SameBlock(BlockKey, txs[i], txs[j]) || SameBlock(BlockKey, txs[j], txs[i]))
    requires f in PairFlags(s.window, ReferenceCheck(txs, s), txs[i], txs[j])
    ensures f in AllDuplicates(txs, s)
  {
    FlagOfPair(s.window, ReferenceCheck(txs, s), BlockKey, txs, f);
  }

  lemma SameChecks(window: int, txs: seq<Doc>, feed: seq<Doc>, s: Settings, x: Doc, y: Doc)
    requires multiset(txs) == multiset(feed)
    ensures PairFlags(window, ReferenceCheck(txs, s), x, y) == PairFlags(window, ReferenceCheck(feed, s), x, y)
  {
    SameCadence(txs, feed, x);
    SameCadence(txs, feed, y);
    hide CadenceFor, CheckPair;
  }

  // ----- Which pairs are reported --------------------------------------------------------------

  predicate Reportable(a: Doc, b: Doc, cadence: Option<int>, s: Settings) {
    && b.day - a.day <= s.window && PassesGates(a, b, s) && BarAdmits(a, b, cadence, s.minConfidence)
  }

  lemma PairFlagsIff(txs: seq<Doc>, s: Settings, x: Doc, y: Doc)
    requires SameBlock(BlockKey, x, y)
    ensures var (a, b) := if x.day <= y.day then (x, y) else (y, x);
      PairFlags(s.window, ReferenceCheck(txs, s), x, y) != [] <==> Reportable(a, b, CadenceFor(txs, a), s)
  {
    var (a, b) := if x.day <= y.day then (x, y) else (y, x);
    hide CadenceFor, BarAdmits, Judge;
    if PassesGates(a, b, s) {
      BarDecides(a, b, CadenceFor(txs, a), s);
    }
  }

  /** Two documents are reported together by a search exactly when they share a block and the check reports
      them. */
  lemma ReportedTogetherIff<K>(window: int, check: Check, key: Doc -> Option<K>, txs: seq<Doc>, i: nat, j: nat)
    requires NamesPair(check) && UniqueIds(txs) && i < j < |txs|
    ensures (exists f :: f in AllPairs(window, check, key, txs) && Names(f, txs[i], txs[j])) <==>
      SameBlock(key, txs[i], txs[j]) && PairFlags(window, check, txs[i], txs[j]) != []
  {
    hide PairFlags, AllPairs, NamesPair, UniqueIds, SameBlock;
    if f :| f in AllPairs(window, check, key, txs) && Names(f, txs[i], txs[j]) {
      var k, l := PairBehind(window, check, key, txs, f);
      PlacesOf(txs, f, i, j, k, l);
    }
    if SameBlock(key, txs[i], txs[j]) && PairFlags(window, check, txs[i], txs[j]) != [] {
      var f := PairFlags(window, check, txs[i], txs[j])[0];
      FlagNames(window, check, txs[i], txs[j], f);
      FlagOfPair(window, check, key, txs, f);
    }
  }

  /** Two documents are in the report together exactly when they share a contact and type, are dated within
      the window, pass the gates and are admitted by the confidence bar. */
  lemma PairReportedIff(txs: seq<Doc>, s: Settings, i: nat, j: nat)
    requires UniqueIds(txs) && i < j < |txs|
    ensures var (a, b) := if txs[i].day <= txs[j].day then (txs[i], txs[j]) else (txs[j], txs[i]);
      (exists f :: f in AllDuplicates(txs, s) && Names(f, txs[i], txs[j])) <==>
      SameBlock(BlockKey, txs[i], txs[j]) && Reportable(a, b, CadenceFor(txs, a), s)
  {
    if SameBlock(BlockKey, txs[i], txs[j]) {
      PairFlagsIff(txs, s, txs[i], txs[j]);
    }
    DuplicatesNamePairs(txs, s);
    hide PairFlags, ReferenceCheck, BlockKey, UniqueIds, Reportable, SameBlock, NamesPair;
    ReportedTogetherIff(s.window, ReferenceCheck(txs, s), BlockKey, txs, i, j);
  }
}
