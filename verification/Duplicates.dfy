/** Same-contact duplicate detection (`_find_duplicate_documents`). Confidence is in hundredths. */
module Duplicates {
  import opened Wrappers
  import opened Documents
  import opened Grouping
  import opened Median
  import opened PairSweep

  datatype Settings = Settings(
    window: int, requireSameAmount: bool, requireExactReference: bool, alsoCheckPaid: bool, minConfidence: int)

  /** Documents are compared only within one real contact and one document type. */
  function BlockKey(d: Doc): Option<(string, DocType)> {
    if d.docType == NoType then None else Some((ContactKey(d), d.docType))
  }

  // ----- Cadence of recurring charges ----------------------------------------------------------

  const RECUR_MIN_SERIES := 3
  const RECUR_PAIR_GAP := 14

  function AmountKey(d: Doc): Option<int> {
    Some(d.amount)
  }

  function Days(xs: seq<Doc>): (days: seq<int>)
    ensures |days| == |xs|
  {
    seq(|xs|, i requires 0 <= i < |xs| => xs[i].day)
  }

  function PositiveGaps(days: seq<int>): seq<int> {
    if |days| < 2 then []
    else (if days[1] > days[0] then [days[1] - days[0]] else []) + PositiveGaps(days[1..])
  }

  /** Twice the median gap of a series of same-amount documents, if it is long enough to tell. */
  function SeriesCadence(series: seq<Doc>): Option<int> {
    var gaps := PositiveGaps(Sort(Days(series)));
    if |series| >= RECUR_MIN_SERIES && gaps != [] then Some(Twice(gaps)) else None
  }

  function Cadence(group: seq<Doc>, amount: int): Option<int> {
    SeriesCadence(Bucket(group, AmountKey, amount))
  }

  function Lookup(cadence: map<int, int>, amount: int): Option<int> {
    if amount in cadence then Some(cadence[amount]) else None
  }

  method LearnCadence(group: seq<Doc>) returns (cadence: map<int, int>)
    ensures forall amount :: Lookup(cadence, amount) == Cadence(group, amount)
  {
    hide SeriesCadence, Bucket;
    var order, series := GroupBy(group, AmountKey);
    cadence := map[];
    for i := 0 to |order|
      invariant forall amount ::
        Lookup(cadence, amount) == if amount in order[..i] then Cadence(group, amount) else None
    {
      assert order[..i + 1] == order[..i] + [order[i]];
      var learned := MeasureSeries(series[order[i]]);
      if learned.Some? {
        cadence := cadence[order[i] := learned.value];
      }
    }
    assert order[..|order|] == order;
    forall amount | amount !in order
      ensures Cadence(group, amount) == None
    {
      NoBucket(group, AmountKey, amount, series);
      ShortSeries();
    }
  }

  method MeasureSeries(txs: seq<Doc>) returns (cadence: Option<int>)
    ensures cadence == SeriesCadence(txs)
  {
    cadence := None;
    if |txs| >= RECUR_MIN_SERIES {
      var days := Sort(Days(txs));
      var gaps := PositiveGaps(days);
      if gaps != [] {
        cadence := Some(Twice(gaps));
      }
    }
  }

  lemma ShortSeries()
    ensures SeriesCadence([]) == None
  {}

  // ----- Gates and waterfall -------------------------------------------------------------------

  datatype RefMatch = Exact | NoRef | Different

  /** `_ref_match` */
  function MatchReferences(a: Doc, b: Doc): RefMatch {
    if a.reference == "" || b.reference == "" then NoRef
    else if a.reference == b.reference then Exact
    else Different
  }

  predicate SameInvoiceNumber(a: Doc, b: Doc) {
    a.invoiceNumber != "" && a.invoiceNumber == b.invoiceNumber
  }

  /** Two identifying numbers that differ: supplier references on purchases, invoice numbers otherwise. */
  predicate DifferentIdentifiers(a: Doc, b: Doc) {
    if IsPurchase(a.docType) then MatchReferences(a, b) == Different
    else a.invoiceNumber != "" && b.invoiceNumber != "" && a.invoiceNumber != b.invoiceNumber
  }

  predicate PassesGates(a: Doc, b: Doc, s: Settings) {
    && (s.requireSameAmount ==> a.amount == b.amount)
    && !(s.requireExactReference && !IsPurchase(a.docType)
         && MatchReferences(a, b) == Different && !SameInvoiceNumber(a, b))
    && !(!s.alsoCheckPaid && IsPaid(a) && IsPaid(b) && !IsCredit(a.docType))
  }

  /** A same-amount pair spaced like its series, or a lone pair two weeks apart. `cadence` is doubled,
      so three quarters of it is compared as `8 * days >= 3 * cadence`. */
  predicate Recurring(a: Doc, b: Doc, cadence: Option<int>) {
    && a.amount == b.amount && !SameInvoiceNumber(a, b)
    && if cadence.Some? then 8 * (b.day - a.day) >= 3 * cadence.value else b.day - a.day >= RECUR_PAIR_GAP
  }

  /** The rule waterfall: confidence and tier of a pair that passed the gates. */
  function Judge(a: Doc, b: Doc, cadence: Option<int>): (int, Tier) {
    if SameInvoiceNumber(a, b) then (100, High)
    else if Recurring(a, b, cadence) then (45, Low)
    else if a.amount != b.amount then (65, Medium)
    else if IsPurchase(a.docType) && MatchReferences(a, b) == Exact then (100, High)
    else if DifferentIdentifiers(a, b) then (if b.day == a.day then (95, High) else (70, Medium))
    else if MatchReferences(a, b) == Exact then (90, High)
    else (75, Medium)
  }

  /** Which of the two is kept: the paid one, else the one posted first, else the one dated first. */
  predicate FirstIsOriginal(a: Doc, b: Doc) {
    if IsPaid(a) != IsPaid(b) then IsPaid(a)
    else if a.postedDay.Some? && b.postedDay.Some? && a.postedDay != b.postedDay then
      a.postedDay.value <= b.postedDay.value
    else a.day <= b.day
  }

  function OneSide(subject: Doc, partner: Doc, original: bool, confidence: int, tier: Tier, days: int): Flag {
    Flag(subject.id, DuplicateTypeOf(subject.docType), confidence, partner.id, partner.day,
         if tier == High then Some(original) else None, tier, false, days)
  }

  /** The two mirrored flags of a pair, or none. `a` is not dated after `b`. */
  function CheckPair(a: Doc, b: Doc, cadence: Option<int>, s: Settings): seq<Flag> {
    var (confidence, tier) := Judge(a, b, cadence);
    if !PassesGates(a, b, s) || confidence < s.minConfidence then
      []
    else
      var (original, duplicate) := if FirstIsOriginal(a, b) then (a, b) else (b, a);
      [OneSide(original, duplicate, true, confidence, tier, b.day - a.day),
       OneSide(duplicate, original, false, confidence, tier, b.day - a.day)]
  }

  /** The cadence that applies to a document: that of its own block and amount. */
  function CadenceFor(txs: seq<Doc>, d: Doc): Option<int> {
    if BlockKey(d).None? then None else Cadence(Bucket(txs, BlockKey, BlockKey(d).value), d.amount)
  }

  function ReferenceCheck(txs: seq<Doc>, s: Settings): Check {
    (a, b) => CheckPair(a, b, CadenceFor(txs, a), s)
  }

  /** All duplicates of a list, found by comparing all pairs. */
  function AllDuplicates(txs: seq<Doc>, s: Settings): multiset<Flag> {
    AllPairs(s.window, ReferenceCheck(txs, s), BlockKey, txs)
  }

  // ----- The blocked, windowed search ----------------------------------------------------------

  /** The search reports exactly the flags of all pairs, strongest first. */
  method FindDuplicateDocuments(txs: seq<Doc>, s: Settings) returns (flagged: seq<Flag>)
    ensures multiset(flagged) == AllDuplicates(txs, s)
    ensures ByConfidence(flagged)
  {
    hide KeysInOrder, Bucket, BlockPairs, ReferenceCheck, SortByConfidence, AllPairs, BlockKey, ByConfidence;
    var order, groups := GroupBy(txs, BlockKey);
    ghost var check := ReferenceCheck(txs, s);
    var found := [];
    for i := 0 to |order|
      invariant multiset(found) == SumBlocks(s.window, check, BlockKey, order[..i], txs)
    {
      assert order[..i + 1][..i] == order[..i];
      var group := groups[order[i]];
      if |group| < 2 {
        NoPairsAlone(s.window, check, group);
      } else {
        var more := SearchBlock(txs, order[i], group, s);
        found := found + more;
      }
    }
    assert order[..|order|] == order;
    BlocksAreAllPairs(s.window, check, BlockKey, order, txs);
    SortedByConfidence(found);
    flagged := SortByConfidence(found);
  }

  method SearchBlock(ghost txs: seq<Doc>, ghost block: (string, DocType), group: seq<Doc>, s: Settings)
    returns (found: seq<Flag>)
    requires group == Bucket(txs, BlockKey, block)
    ensures multiset(found) == BlockPairs(s.window, ReferenceCheck(txs, s), group)
  {
    hide *;
    var cadence := LearnCadence(group);
    SortOrdered(group);
    var sorted := SortByDay(group);
    var check := LocalCheck(cadence, s);
    found := Sweep(sorted, s.window, check);
    SortKeepsPairs(s.window, check, group);
    LocalChecksAgree(txs, block, group, cadence, s);
    SameChecksSamePairs(s.window, check, ReferenceCheck(txs, s), group);
  }

  /** The check as one block runs it, with the cadences learned from that block. */
  function LocalCheck(cadence: map<int, int>, s: Settings): Check {
    (a: Doc, b: Doc) => CheckPair(a, b, Lookup(cadence, a.amount), s)
  }

  lemma LocalChecksAgree(txs: seq<Doc>, block: (string, DocType), group: seq<Doc>, cadence: map<int, int>, s: Settings)
    requires group == Bucket(txs, BlockKey, block)
    requires forall amount :: Lookup(cadence, amount) == Cadence(group, amount)
    ensures forall x, y :: x in group && y in group ==> LocalCheck(cadence, s)(x, y) == ReferenceCheck(txs, s)(x, y)
  {
    hide Cadence, CheckPair, Bucket;
    forall x | x in group
      ensures Lookup(cadence, x.amount) == CadenceFor(txs, x)
    {
      assert BlockKey(x) == Some(block);
    }
  }

  // ----- What the verdicts mean ----------------------------------------------------------------

  /** A pair counts as a confirmed duplicate exactly when its invoice numbers agree, or its amounts
      agree, it is not a recurring charge, and either the identifying numbers clash on one day or,
      with no clash, the references agree. */
  lemma ConfirmedMeans(a: Doc, b: Doc, cadence: Option<int>)
    requires a.docType == b.docType
    ensures Judge(a, b, cadence).1 == High <==>
      || SameInvoiceNumber(a, b)
      || (a.amount == b.amount && !Recurring(a, b, cadence)
          && if DifferentIdentifiers(a, b) then a.day == b.day else MatchReferences(a, b) == Exact)
    ensures Judge(a, b, cadence).1 == Low <==> Recurring(a, b, cadence)
  {}

  /** What a user sees at each setting of the confidence bar: as it rises, pairs drop out in this order
      - recurring charges, different amounts, different identifying numbers on different days, unconfirmed
      pairs, sales with equal references alone, clashing numbers on one day - until nothing is left. */
  predicate BarAdmits(a: Doc, b: Doc, cadence: Option<int>, bar: int) {
    var plain := a.amount == b.amount && !Recurring(a, b, cadence);
    var clash := DifferentIdentifiers(a, b);
    var sameBill := IsPurchase(a.docType) && MatchReferences(a, b) == Exact;
    if bar <= 45 then true
    else if bar <= 65 then !Recurring(a, b, cadence)
    else if bar <= 70 then SameInvoiceNumber(a, b) || plain
    else if bar <= 75 then SameInvoiceNumber(a, b) || (plain && (clash ==> a.day == b.day))
    else if bar <= 90 then
      SameInvoiceNumber(a, b) || (plain && if clash then a.day == b.day else MatchReferences(a, b) == Exact)
    else if bar <= 95 then SameInvoiceNumber(a, b) || (plain && (sameBill || (clash && a.day == b.day)))
    else bar <= 100 && (SameInvoiceNumber(a, b) || (plain && sameBill))
  }

  lemma BarDecides(a: Doc, b: Doc, cadence: Option<int>, s: Settings)
    requires PassesGates(a, b, s) && a.docType == b.docType
    ensures CheckPair(a, b, cadence, s) != [] <==> BarAdmits(a, b, cadence, s.minConfidence)
  {
    hide Recurring, PassesGates, SameInvoiceNumber, FirstIsOriginal, DuplicateTypeOf;
    RecurringHasOneAmount(a, b, cadence);
  }

  lemma RecurringHasOneAmount(a: Doc, b: Doc, cadence: Option<int>)
    ensures Recurring(a, b, cadence) ==> a.amount == b.amount && !SameInvoiceNumber(a, b)
  {}

  /** On one day the verdict does not depend on which document comes first in the feed. */
  lemma SameDayVerdictIsSymmetric(a: Doc, b: Doc, cadence: Option<int>, s: Settings)
    requires a.docType == b.docType && a.day == b.day
    ensures PassesGates(a, b, s) == PassesGates(b, a, s)
    ensures Judge(a, b, cadence) == Judge(b, a, cadence)
  {}

  /** `g` is the other half of `f`: the same verdict seen from the partner, with the opposite mark. */
  predicate Mirrors(f: Flag, g: Flag) {
    && g.docId == f.duplicateOf && g.duplicateOf == f.docId
    && g.confidence == f.confidence && g.tier == f.tier && g.daysApart == f.daysApart
    && (f.tier == High ==> f.likelyOriginal.Some? && g.likelyOriginal == Some(!f.likelyOriginal.value))
    && (f.tier != High ==> f.likelyOriginal == g.likelyOriginal == None)
  }

  /** Every flag in the report has its mirror in the report, and of a confirmed pair exactly one side
      is marked original. */
  lemma EveryFlagIsMirrored(txs: seq<Doc>, s: Settings, f: Flag)
    requires f in AllDuplicates(txs, s)
    ensures exists g :: g in AllDuplicates(txs, s) && Mirrors(f, g)
  {
    var check := ReferenceCheck(txs, s);
    FlagOfPair(s.window, check, BlockKey, txs, f);
    var i, j :| 0 <= i < j < |txs| && SameBlock(BlockKey, txs[i], txs[j])
                && f in PairFlags(s.window, check, txs[i], txs[j]);
    var g := MirrorInPair(txs, s, txs[i], txs[j], f);
    FlagOfPair(s.window, check, BlockKey, txs, g);
  }

  lemma MirrorInPair(txs: seq<Doc>, s: Settings, x: Doc, y: Doc, f: Flag) returns (g: Flag)
    requires f in PairFlags(s.window, ReferenceCheck(txs, s), x, y)
    ensures g in PairFlags(s.window, ReferenceCheck(txs, s), x, y) && Mirrors(f, g)
  {
    var (a, b) := if x.day <= y.day then (x, y) else (y, x);
    var flags := CheckPair(a, b, CadenceFor(txs, a), s);
    hide Judge, PassesGates, FirstIsOriginal, Cadence, CadenceFor, DuplicateTypeOf;
    assert PairFlags(s.window, ReferenceCheck(txs, s), x, y) == flags;
    assert |flags| == 2 && Mirrors(flags[0], flags[1]) && Mirrors(flags[1], flags[0]);
    g := if f == flags[0] then flags[1] else flags[0];
    assert f == flags[0] || f == flags[1];
  }
}
