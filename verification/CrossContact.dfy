/** Duplicates across two different contacts (`_find_cross_contact_duplicates`): same type and amount,
    the same supplier by VAT number or by name, and an additive score. The name similarity is any
    function into the unit interval. */
module CrossContact {
  import opened Wrappers
  import opened Documents
  import opened Grouping
  import opened PairSweep
  import opened Duplicates
  import opened DuplicateOrder

  type Similarity = (string, string) -> real

  const AMOUNT_POINTS := 20.0
  const NAME_WEIGHT := 30.0
  const SAMEDAY_POINTS := 15.0
  const WINDOW_POINTS := 8.0
  const IDENTIFIER_POINTS := 20.0
  const DESCRIPTION_POINTS := 10.0
  const SECONDARY_POINTS := 5.0
  const NAME_MIN := 0.6
  const MIN_CONFIDENCE := 60

  function AmountBlock(d: Doc): Option<(DocType, int)> {
    if d.docType == NoType then None else Some((d.docType, d.amount))
  }

  function VatOf(vat: map<string, string>, d: Doc): string {
    if d.contactId in vat then vat[d.contactId] else ""
  }

  /** The party gate: how strongly the two contacts are the same supplier, if at all. VAT decides when
      both have a number, else the names must be close enough. */
  function PartyStrength(a: Doc, b: Doc, vat: map<string, string>, sim: Similarity): Option<real> {
    var va, vb := VatOf(vat, a), VatOf(vat, b);
    if va != "" && vb != "" then (if va == vb then Some(1.0) else None)
    else if sim(a.vendorName, b.vendorName) < NAME_MIN then None
    else Some(sim(a.vendorName, b.vendorName))
  }

  predicate SameReference(a: Doc, b: Doc) {
    MatchReferences(a, b) == Exact
  }

  predicate SameDescription(a: Doc, b: Doc) {
    a.description != "" && a.description == b.description
  }

  function When(c: bool, points: real): real {
    if c then points else 0.0
  }

  /** The additive score of a pair whose party strength is `party`. */
  function Points(a: Doc, b: Doc, party: real): real {
    var purchase := IsPurchase(a.docType);
    var sameIdentifier := if purchase then SameReference(a, b) else SameInvoiceNumber(a, b);
    var sameSecondary := if purchase then SameInvoiceNumber(a, b) else SameReference(a, b);
    AMOUNT_POINTS + party * NAME_WEIGHT
    + (if b.day == a.day then SAMEDAY_POINTS else WINDOW_POINTS)
    + When(sameIdentifier, IDENTIFIER_POINTS)
    + When(sameSecondary, SECONDARY_POINTS)
    + When(SameDescription(a, b), DESCRIPTION_POINTS)
  }

  /** Python's `round` to an integer: nearest, ties to even. */
  function Round(x: real): (r: int)
    ensures -0.5 <= x - r as real <= 0.5
  {
    var f := x.Floor;
    var rest := x - f as real;
    if rest < 0.5 || (rest == 0.5 && f % 2 == 0) then f else f + 1
  }

  function Confidence(points: real): int {
    Round(if points <= 100.0 then points else 100.0)
  }

  function CrossSide(subject: Doc, partner: Doc, original: bool, confidence: int, days: int): Flag {
    Flag(subject.id, DuplicateTypeOf(subject.docType), confidence, partner.id, partner.day,
         Some(original), Review, true, days)
  }

  /** The gates that come before the score. */
  predicate PassesCrossGates(a: Doc, b: Doc, s: Settings) {
    ContactKey(a) != ContactKey(b) && !(!s.alsoCheckPaid && IsPaid(a) && IsPaid(b) && !IsCredit(a.docType))
  }

  /** The two mirrored flags of a pair, or none. `a` is not dated after `b`. */
  function CheckCrossPair(a: Doc, b: Doc, vat: map<string, string>, sim: Similarity, s: Settings): seq<Flag> {
    var party := PartyStrength(a, b, vat, sim);
    if !PassesCrossGates(a, b, s) || party.None? then
      []
    else
      var confidence := Confidence(Points(a, b, party.value));
      if confidence < MIN_CONFIDENCE then
        []
      else
        var (original, duplicate) := if FirstIsOriginal(a, b) then (a, b) else (b, a);
        [CrossSide(original, duplicate, true, confidence, b.day - a.day),
         CrossSide(duplicate, original, false, confidence, b.day - a.day)]
  }

  function CrossCheck(vat: map<string, string>, sim: Similarity, s: Settings): Check {
    (a, b) => CheckCrossPair(a, b, vat, sim, s)
  }

  /** All cross-contact duplicates of a list, found by comparing all pairs. */
  function AllCrossDuplicates(txs: seq<Doc>, vat: map<string, string>, sim: Similarity, s: Settings): multiset<Flag> {
    AllPairs(s.window, CrossCheck(vat, sim, s), AmountBlock, txs)
  }

  /** The amount-blocked search reports exactly the flags of all pairs, strongest first. */
  method FindCrossContactDuplicates(txs: seq<Doc>, vat: map<string, string>, sim: Similarity, s: Settings)
    returns (flagged: seq<Flag>)
    ensures multiset(flagged) == AllCrossDuplicates(txs, vat, sim, s)
    ensures ByConfidence(flagged)
  {
    hide KeysInOrder, Bucket, BlockPairs, SortByConfidence, AllPairs, AmountBlock, ByConfidence;
    var check := CrossCheck(vat, sim, s);
    var order, groups := GroupBy(txs, AmountBlock);
    var found := [];
    for i := 0 to |order|
      invariant multiset(found) == SumBlocks(s.window, check, AmountBlock, order[..i], txs)
    {
      assert order[..i + 1][..i] == order[..i];
      var group := groups[order[i]];
      if |group| < 2 {
        NoPairsAlone(s.window, check, group);
      } else {
        SortOrdered(group);
        SortKeepsPairs(s.window, check, group);
        var sorted := SortByDay(group);
        var more := Sweep(sorted, s.window, check);
        found := found + more;
      }
    }
    assert order[..|order|] == order;
    BlocksAreAllPairs(s.window, check, AmountBlock, order, txs);
    SortedByConfidence(found);
    flagged := SortByConfidence(found);
  }

  // ----- Each pair once, and mirrored ------------------------------------------------------------

  lemma CrossNamesPairs(vat: map<string, string>, sim: Similarity, s: Settings)
    ensures NamesPair(CrossCheck(vat, sim, s))
  {
    hide PartyStrength, Points, Confidence, PassesCrossGates, FirstIsOriginal, DuplicateTypeOf;
  }

  /** Each pair is reported once each way round. */
  lemma EachCrossPairOnce(txs: seq<Doc>, vat: map<string, string>, sim: Similarity, s: Settings, f: Flag, g: Flag)
    requires UniqueIds(txs) && f in AllCrossDuplicates(txs, vat, sim, s) && g in AllCrossDuplicates(txs, vat, sim, s)
    requires f.docId == g.docId && f.duplicateOf == g.duplicateOf
    ensures f == g && AllCrossDuplicates(txs, vat, sim, s)[f] == 1
  {
    CrossNamesPairs(vat, sim, s);
    OncePerPair(s.window, CrossCheck(vat, sim, s), AmountBlock, txs, f, g);
  }

  /** The other half of a flag: the same score seen from the partner, with the opposite mark. */
  predicate CrossMirrors(f: Flag, g: Flag) {
    && g.docId == f.duplicateOf && g.duplicateOf == f.docId
    && g.confidence == f.confidence && g.tier == f.tier && g.daysApart == f.daysApart
    && f.likelyOriginal.Some? && g.likelyOriginal == Some(!f.likelyOriginal.value)
  }

  /** Every flag's mirror is in the report too, and exactly one side of each pair is the original. */
  lemma EveryCrossFlagIsMirrored(txs: seq<Doc>, vat: map<string, string>, sim: Similarity, s: Settings, f: Flag)
    requires f in AllCrossDuplicates(txs, vat, sim, s)
    ensures exists g :: g in AllCrossDuplicates(txs, vat, sim, s) && CrossMirrors(f, g)
  {
    var check := CrossCheck(vat, sim, s);
    CrossNamesPairs(vat, sim, s);
    var i, j := PairBehind(s.window, check, AmountBlock, txs, f);
    var g := CrossMirrorInPair(vat, sim, s, txs[i], txs[j], f);
    FlagOfPair(s.window, check, AmountBlock, txs, g);
  }

  lemma CrossMirrorInPair(vat: map<string, string>, sim: Similarity, s: Settings, x: Doc, y: Doc, f: Flag)
    returns (g: Flag)
    requires f in PairFlags(s.window, CrossCheck(vat, sim, s), x, y)
    ensures g in PairFlags(s.window, CrossCheck(vat, sim, s), x, y) && CrossMirrors(f, g)
  {
    hide PartyStrength, Points, Confidence, PassesCrossGates, FirstIsOriginal, DuplicateTypeOf;
    var (a, b) := if x.day <= y.day then (x, y) else (y, x);
    var flags := CheckCrossPair(a, b, vat, sim, s);
    assert PairFlags(s.window, CrossCheck(vat, sim, s), x, y) == flags;
    assert |flags| == 2 && (f == flags[0] || f == flags[1]);
    g := if f == flags[0] then flags[1] else flags[0];
  }

  // ----- The order of the feed -----------------------------------------------------------------

  /** Either document first, the pair gets the same score. */
  predicate ScoredAlike(x: Doc, y: Doc, vat: map<string, string>, sim: Similarity) {
    var p, q := PartyStrength(x, y, vat, sim), PartyStrength(y, x, vat, sim);
    p.Some? && q.Some? && Confidence(Points(x, y, p.value)) == Confidence(Points(y, x, q.value))
  }

  lemma PointsEitherWay(x: Doc, y: Doc, party: real)
    requires x.docType == y.docType && x.day == y.day
    ensures Points(x, y, party) == Points(y, x, party)
  {}

  /** A symmetric similarity scores every pair of one day alike. */
  lemma SymmetricScores(x: Doc, y: Doc, vat: map<string, string>, sim: Similarity)
    requires x.docType == y.docType && x.day == y.day && PartyStrength(x, y, vat, sim).Some?
    requires sim(x.vendorName, y.vendorName) == sim(y.vendorName, x.vendorName)
    ensures ScoredAlike(x, y, vat, sim)
  {
    PointsEitherWay(x, y, PartyStrength(x, y, vat, sim).value);
    hide Points, Confidence, VatOf;
  }

  lemma CrossSameDay(x: Doc, y: Doc, vat: map<string, string>, sim: Similarity, s: Settings, f: Flag)
    requires x.docType == y.docType && x.day == y.day && x.id != y.id && f in CheckCrossPair(x, y, vat, sim, s)
    ensures f in CheckCrossPair(y, x, vat, sim, s) <==> ScoredAlike(x, y, vat, sim) && !Tied(x, y)
    ensures ScoredAlike(x, y, vat, sim) <==>
      exists g :: g in CheckCrossPair(y, x, vat, sim, s) && SameButMark(f, g)
  {
    TiedMeans(x, y);
    hide Points, Confidence, PartyStrength, DuplicateTypeOf, Tied, FirstIsOriginal, IsPaid, ContactKey;
    var fs, gs := CheckCrossPair(x, y, vat, sim, s), CheckCrossPair(y, x, vat, sim, s);
    assert |fs| == 2 && (f == fs[0] || f == fs[1]);
    if gs != [] {
      assert |gs| == 2;
      assert f in gs <==> f == gs[0] || f == gs[1];
      if ScoredAlike(x, y, vat, sim) {
        var g := if Tied(x, y) == (f == fs[0]) then gs[1] else gs[0];
        assert g in gs && SameButMark(f, g);
      }
    }
  }

  /** The pair's flags seen from the other end of the feed. */
  lemma CrossEitherWay(vat: map<string, string>, sim: Similarity, s: Settings, x: Doc, y: Doc, f: Flag)
    requires SameBlock(AmountBlock, x, y) && x.id != y.id
    requires f in PairFlags(s.window, CrossCheck(vat, sim, s), x, y)
    ensures f in PairFlags(s.window, CrossCheck(vat, sim, s), y, x) <==>
      x.day != y.day || (ScoredAlike(x, y, vat, sim) && !Tied(x, y))
    ensures (x.day != y.day || ScoredAlike(x, y, vat, sim)) <==>
      exists g :: g in PairFlags(s.window, CrossCheck(vat, sim, s), y, x) && SameButMark(f, g)
  {
    if x.day == y.day {
      CrossSameDay(x, y, vat, sim, s, f);
    } else {
      assert SameButMark(f, f);
    }
    hide CheckCrossPair, ScoredAlike, Tied;
  }

  /** When a rearranged feed reports the very same flag: always, unless the two documents have one date and
      changed places, and then if both orders score alike and they are not tied. */
  lemma SameCrossFlagIff(
    txs: seq<Doc>, feed: seq<Doc>, vat: map<string, string>, sim: Similarity, s: Settings, f: Flag,
    i: nat, j: nat, k: nat, l: nat)
    requires UniqueIds(txs) && multiset(txs) == multiset(feed) && f in AllCrossDuplicates(txs, vat, sim, s)
    requires i < j < |txs| && Names(f, txs[i], txs[j])
    requires k < |feed| && l < |feed| && feed[k] == txs[i] && feed[l] == txs[j]
    ensures f in AllCrossDuplicates(feed, vat, sim, s) <==>
      k < l || txs[i].day != txs[j].day || (ScoredAlike(txs[i], txs[j], vat, sim) && !Tied(txs[i], txs[j]))
  {
    var check := CrossCheck(vat, sim, s);
    CrossNamesPairs(vat, sim, s);
    var a, b := PairBehind(s.window, check, AmountBlock, txs, f);
    PlacesOf(txs, f, i, j, a, b);
    UniqueIdsRearranged(txs, feed);
    assert txs[i].id != txs[j].id && k != l;
    hide PairFlags, CrossCheck, Tied, ScoredAlike, AmountBlock, UniqueIds, NamesPair;
    CrossEitherWay(vat, sim, s, txs[i], txs[j], f);
    if k < l {
      InSearchIff(s.window, check, AmountBlock, feed, k, l, f);
    } else {
      InSearchIff(s.window, check, AmountBlock, feed, l, k, f);
    }
  }

  /** With a symmetric similarity a rearranged feed gives the same flags but for the mark of the original. */
  lemma CrossOrderDoesNotMatter(
    txs: seq<Doc>, feed: seq<Doc>, vat: map<string, string>, sim: Similarity, s: Settings, f: Flag)
    returns (g: Flag)
    requires UniqueIds(txs) && multiset(txs) == multiset(feed) && f in AllCrossDuplicates(txs, vat, sim, s)
    requires forall x, y :: sim(x, y) == sim(y, x)
    ensures g in AllCrossDuplicates(feed, vat, sim, s) && SameButMark(f, g)
  {
    var check := CrossCheck(vat, sim, s);
    CrossNamesPairs(vat, sim, s);
    var i, j := PairBehind(s.window, check, AmountBlock, txs, f);
    var k, l := FindBoth(txs, feed, i, j);
    if txs[i].day == txs[j].day {
      PairEarnsParty(vat, sim, s, txs[i], txs[j], f);
      SymmetricScores(txs[i], txs[j], vat, sim);
    }
    hide PairFlags, CrossCheck, ScoredAlike, AmountBlock, UniqueIds, NamesPair, PartyStrength;
    CrossEitherWay(vat, sim, s, txs[i], txs[j], f);
    if k < l {
      g := f;
    } else {
      g :| g in PairFlags(s.window, check, txs[j], txs[i]) && SameButMark(f, g);
    }
    FlagOfPair(s.window, check, AmountBlock, feed, g);
  }

  lemma PairEarnsParty(vat: map<string, string>, sim: Similarity, s: Settings, x: Doc, y: Doc, f: Flag)
    requires f in PairFlags(s.window, CrossCheck(vat, sim, s), x, y) && x.day == y.day
    ensures PartyStrength(x, y, vat, sim).Some?
  {
    hide PartyStrength, Points, Confidence, PassesCrossGates, FirstIsOriginal, DuplicateTypeOf;
  }

  // ----- What the score can reach --------------------------------------------------------------

  /** The weights sum to 100, so the cap never bites. Documents whose own number is the invoice number
      reach 80 when those numbers differ, purchases 95 when theirs do, and different-day pairs with
      nothing but amount and party 58, which is never enough. */
  lemma ScoreCeilings(a: Doc, b: Doc, party: real)
    requires 0.0 <= party <= 1.0
    ensures var p := Points(a, b, party);
      && 28.0 <= p <= 100.0
      && (!SameInvoiceNumber(a, b) ==> p <= if IsPurchase(a.docType) then 95.0 else 80.0)
      && (a.day != b.day && !SameReference(a, b) && !SameInvoiceNumber(a, b) && !SameDescription(a, b) ==>
            p <= 58.0 && Confidence(p) < MIN_CONFIDENCE)
  {}

  /** A pair is reported exactly when the contacts differ, at least one copy is unpaid (or paid ones
      are in scope, or it is a credit), the party gate is passed and the score rounds to 60 or more. */
  lemma CrossReportedIff(a: Doc, b: Doc, vat: map<string, string>, sim: Similarity, s: Settings)
    requires forall x, y :: 0.0 <= sim(x, y) <= 1.0
    ensures CheckCrossPair(a, b, vat, sim, s) != [] <==>
      && ContactKey(a) != ContactKey(b)
      && (s.alsoCheckPaid || !IsPaid(a) || !IsPaid(b) || IsCredit(a.docType))
      && PartyStrength(a, b, vat, sim).Some?
      && Round(Points(a, b, PartyStrength(a, b, vat, sim).value)) >= 60
  {
    if PartyStrength(a, b, vat, sim).Some? {
      ScoreCeilings(a, b, PartyStrength(a, b, vat, sim).value);
    }
  }

  /** What a pair needs to be reported, `a` not dated after `b`. */
  predicate CrossReportable(a: Doc, b: Doc, vat: map<string, string>, sim: Similarity, s: Settings) {
    && b.day - a.day <= s.window
    && ContactKey(a) != ContactKey(b)
    && (s.alsoCheckPaid || !IsPaid(a) || !IsPaid(b) || IsCredit(a.docType))
    && PartyStrength(a, b, vat, sim).Some?
    && Round(Points(a, b, PartyStrength(a, b, vat, sim).value)) >= 60
  }

  /** Two documents are in the report together exactly when they have one type and amount, lie within the
      window, belong to different contacts that pass the party gate, are not both settled copies out of
      scope, and score 60 or more. */
  lemma CrossPairReportedIff(txs: seq<Doc>, vat: map<string, string>, sim: Similarity, s: Settings, i: nat, j: nat)
    requires UniqueIds(txs) && i < j < |txs| && forall x, y :: 0.0 <= sim(x, y) <= 1.0
    ensures var (a, b) := if txs[i].day <= txs[j].day then (txs[i], txs[j]) else (txs[j], txs[i]);
      (exists f :: f in AllCrossDuplicates(txs, vat, sim, s) && Names(f, txs[i], txs[j])) <==>
      SameBlock(AmountBlock, txs[i], txs[j]) && CrossReportable(a, b, vat, sim, s)
  {
    CrossFlagsIff(vat, sim, s, txs[i], txs[j]);
    CrossNamesPairs(vat, sim, s);
    hide PairFlags, CrossCheck, AmountBlock, UniqueIds, CrossReportable, SameBlock, NamesPair;
    ReportedTogetherIff(s.window, CrossCheck(vat, sim, s), AmountBlock, txs, i, j);
  }

  lemma CrossFlagsIff(vat: map<string, string>, sim: Similarity, s: Settings, x: Doc, y: Doc)
    requires forall x, y :: 0.0 <= sim(x, y) <= 1.0
    ensures var (a, b) := if x.day <= y.day then (x, y) else (y, x);
      PairFlags(s.window, CrossCheck(vat, sim, s), x, y) != [] <==> CrossReportable(a, b, vat, sim, s)
  {
    var (a, b) := if x.day <= y.day then (x, y) else (y, x);
    CrossReportedIff(a, b, vat, sim, s);
    hide PartyStrength, Points, Round, IsPaid, ContactKey, CheckCrossPair;
  }

  /** The documents behind a reported flag: another contact, same type and amount, within the window,
      and never two different VAT numbers. */
  lemma CrossFlagSource(txs: seq<Doc>, vat: map<string, string>, sim: Similarity, s: Settings, f: Flag)
    returns (x: Doc, y: Doc)
    requires f in AllCrossDuplicates(txs, vat, sim, s)
    ensures x in txs && y in txs && x.id == f.docId && y.id == f.duplicateOf
    ensures x.docType == y.docType && x.amount == y.amount
    ensures -s.window <= x.day - y.day <= s.window
    ensures ContactKey(x) != ContactKey(y)
    ensures !(VatOf(vat, x) != "" && VatOf(vat, y) != "" && VatOf(vat, x) != VatOf(vat, y))
    ensures f.crossContact && f.confidence >= MIN_CONFIDENCE
  {
    var check := CrossCheck(vat, sim, s);
    FlagOfPair(s.window, check, AmountBlock, txs, f);
    var i, j :| 0 <= i < j < |txs| && SameBlock(AmountBlock, txs[i], txs[j])
                && f in PairFlags(s.window, check, txs[i], txs[j]);
    x, y := CrossPairSource(vat, sim, s, txs[i], txs[j], f);
  }

  lemma CrossPairSource(vat: map<string, string>, sim: Similarity, s: Settings, u: Doc, v: Doc, f: Flag)
    returns (x: Doc, y: Doc)
    requires f in PairFlags(s.window, CrossCheck(vat, sim, s), u, v)
    ensures (x == u && y == v) || (x == v && y == u)
    ensures x.id == f.docId && y.id == f.duplicateOf
    ensures -s.window <= x.day - y.day <= s.window
    ensures ContactKey(x) != ContactKey(y)
    ensures !(VatOf(vat, x) != "" && VatOf(vat, y) != "" && VatOf(vat, x) != VatOf(vat, y))
    ensures f.crossContact && f.confidence >= MIN_CONFIDENCE
  {
    hide Points, Confidence, DuplicateTypeOf, ContactKey, VatOf;
    var (a, b) := if u.day <= v.day then (u, v) else (v, u);
    var flags := CheckCrossPair(a, b, vat, sim, s);
    assert f in flags && |flags| == 2;
    assert f == flags[0] || f == flags[1];
    var first := FirstIsOriginal(a, b) == (f == flags[0]);
    x, y := if first then a else b, if first then b else a;
  }

  /** The source of a same-contact flag: two documents of one contact. */
  lemma SameContactFlagSource(txs: seq<Doc>, s: Settings, f: Flag) returns (x: Doc, y: Doc)
    requires f in AllDuplicates(txs, s)
    ensures x in txs && y in txs && x.id == f.docId && y.id == f.duplicateOf
    ensures ContactKey(x) == ContactKey(y)
  {
    var i, j := DocumentsOf(txs, s, f);
    hide AllDuplicates, ContactKey;
    x, y := if f.docId == txs[i].id then txs[i] else txs[j], if f.docId == txs[i].id then txs[j] else txs[i];
  }

  /** The two passes never report the same pair of documents. */
  lemma PassesAreDisjoint(txs: seq<Doc>, vat: map<string, string>, sim: Similarity, s: Settings, f: Flag, g: Flag)
    requires UniqueIds(txs)
    requires f in AllDuplicates(txs, s) && g in AllCrossDuplicates(txs, vat, sim, s)
    ensures !(f.docId == g.docId && f.duplicateOf == g.duplicateOf)
  {
    var x, y := SameContactFlagSource(txs, s, f);
    var u, v := CrossFlagSource(txs, vat, sim, s, g);
    hide AllDuplicates, AllCrossDuplicates, ContactKey;
    if x.id == u.id && y.id == v.id {
      SameIdSameDoc(txs, x, u);
      SameIdSameDoc(txs, y, v);
    }
  }

  lemma SameIdSameDoc(txs: seq<Doc>, x: Doc, y: Doc)
    requires UniqueIds(txs) && x in txs && y in txs && x.id == y.id
    ensures x == y
  {
    var i :| 0 <= i < |txs| && txs[i] == x;
    var j :| 0 <= j < |txs| && txs[j] == y;
  }
}
