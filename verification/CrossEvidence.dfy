/** What it takes for documents of two contacts to be reported as duplicates, what each signal adds to their
    score, and what their flags say, told from the fields of the documents. */
module CrossEvidence {
  import opened Wrappers
  import opened Documents
  import opened PairSweep
  import opened Duplicates
  import opened DuplicateOrder
  import opened DuplicateEvidence
  import opened CrossContact

  // ----- The party -----------------------------------------------------------------------------

  /** The VAT number of a document's contact, if it has one. */
  predicate HasVat(vat: map<string, string>, d: Doc, number: string) {
    d.contactId in vat && vat[d.contactId] == number && number != ""
  }

  ghost predicate Registered(vat: map<string, string>, d: Doc) {
    exists number :: HasVat(vat, d, number)
  }

  /** How strongly the contacts are one party: one VAT number is proof and two are the opposite; without two
      numbers, the similarity of the names from 60 hundredths up. */
  ghost predicate OneParty(a: Doc, b: Doc, vat: map<string, string>, sim: Similarity, strength: real) {
    if Registered(vat, a) && Registered(vat, b) then
      strength == 1.0 && exists number :: HasVat(vat, a, number) && HasVat(vat, b, number)
    else
      strength == sim(a.vendorName, b.vendorName) && strength >= 0.6
  }

  lemma VatNumberIs(vat: map<string, string>, d: Doc)
    ensures if Registered(vat, d) then HasVat(vat, d, VatOf(vat, d)) else VatOf(vat, d) == ""
    ensures forall number :: HasVat(vat, d, number) ==> number == VatOf(vat, d)
  {
    if VatOf(vat, d) != "" {
      assert HasVat(vat, d, VatOf(vat, d));
    }
  }

  lemma OnePartyIff(a: Doc, b: Doc, vat: map<string, string>, sim: Similarity, strength: real)
    ensures PartyStrength(a, b, vat, sim) == Some(strength) <==> OneParty(a, b, vat, sim, strength)
  {
    VatNumberIs(vat, a);
    VatNumberIs(vat, b);
    hide VatOf, Registered;
    assert forall number :: HasVat(vat, a, number) ==> number != "";
  }

  // ----- What each signal is worth --------------------------------------------------------------

  /** A reference in common adds 20 points on a bill and 5 on a sale. */
  lemma ReferenceIsWorth(a: Doc, b: Doc, party: real)
    requires !Agree(a.reference, b.reference) && b.reference != ""
    ensures Points(a.(reference := b.reference), b, party) ==
      Points(a, b, party) + if Bill(a) then 20.0 else 5.0
  {}

  /** An invoice number in common adds 5 points on a bill and 20 on a sale. */
  lemma InvoiceNumberIsWorth(a: Doc, b: Doc, party: real)
    requires !Agree(a.invoiceNumber, b.invoiceNumber) && b.invoiceNumber != ""
    ensures Points(a.(invoiceNumber := b.invoiceNumber), b, party) ==
      Points(a, b, party) + if Bill(a) then 5.0 else 20.0
  {}

  lemma DescriptionIsWorth(a: Doc, b: Doc, party: real)
    requires !Agree(a.description, b.description) && b.description != ""
    ensures Points(a.(description := b.description), b, party) == Points(a, b, party) + 10.0
  {}

  lemma SameDayIsWorth(a: Doc, b: Doc, party: real)
    requires a.day != b.day
    ensures Points(a.(day := b.day), b, party) == Points(a, b, party) + 7.0
  {}

  lemma PartyIsWorth(a: Doc, b: Doc, party: real, more: real)
    ensures Points(a, b, party + more) == Points(a, b, party) + 30.0 * more
  {}

  /** With nothing in common but the amount and the party, 28 points and 30 for the party. */
  lemma FloorOfScore(a: Doc, b: Doc, party: real)
    requires !Agree(a.reference, b.reference) && !Agree(a.invoiceNumber, b.invoiceNumber)
    requires !Agree(a.description, b.description) && a.day != b.day
    ensures Points(a, b, party) == 28.0 + 30.0 * party
  {}

  /** The ceilings are reached: a sale with everything in common but its number scores 80, a bill 95, and with
      the number in common as well either scores 100. */
  lemma CeilingsAreReached(a: Doc, b: Doc)
    requires a.day == b.day && Agree(a.reference, b.reference) && Agree(a.description, b.description)
    ensures !Agree(a.invoiceNumber, b.invoiceNumber) ==> Points(a, b, 1.0) == if Bill(a) then 95.0 else 80.0
    ensures Agree(a.invoiceNumber, b.invoiceNumber) ==> Points(a, b, 1.0) == 100.0
  {}

  /** The sum of all that speaks for the pair. */
  function Score(a: Doc, b: Doc, party: real): real {
    20.0 + 30.0 * party
    + (if a.day == b.day then 15.0 else 8.0)
    + (if !Agree(a.reference, b.reference) then 0.0 else if Bill(a) then 20.0 else 5.0)
    + (if !Agree(a.invoiceNumber, b.invoiceNumber) then 0.0 else if Bill(a) then 5.0 else 20.0)
    + (if Agree(a.description, b.description) then 10.0 else 0.0)
  }

  lemma PointsAreScore(a: Doc, b: Doc, party: real)
    ensures Points(a, b, party) == Score(a, b, party)
  {}

  /** The whole number nearest to a score, the even one of two. */
  predicate Nearest(score: real, n: int) {
    && -0.5 <= score - n as real <= 0.5
    && (score - n as real == 0.5 || score - n as real == -0.5 ==> n % 2 == 0)
  }

  lemma RoundIsNearest(x: real, n: int)
    ensures Round(x) == n <==> Nearest(x, n)
  {}

  // ----- Which pairs are reported --------------------------------------------------------------

  /** What the report asks of two documents, `a` not dated after `b`. */
  ghost predicate CrossComparable(a: Doc, b: Doc, s: Settings) {
    && a.docType == b.docType && a.docType != NoType && a.amount == b.amount
    && !OneContact(a, b) && b.day - a.day <= s.window
    && (Settled(a) && Settled(b) ==> s.alsoCheckPaid || CreditNote(a))
  }

  /** A party, and a score that rounds to 60 or more: 59.5 does, for 60 is even. */
  ghost predicate ScoresEnough(a: Doc, b: Doc, vat: map<string, string>, sim: Similarity) {
    exists party :: OneParty(a, b, vat, sim, party) && Score(a, b, party) >= 59.5
  }

  lemma EnoughIff(a: Doc, b: Doc, vat: map<string, string>, sim: Similarity)
    ensures ScoresEnough(a, b, vat, sim) <==>
      PartyStrength(a, b, vat, sim).Some? && Round(Points(a, b, PartyStrength(a, b, vat, sim).value)) >= 60
  {
    var strength := PartyStrength(a, b, vat, sim);
    forall party
      ensures OneParty(a, b, vat, sim, party) <==> strength == Some(party)
    {
      OnePartyIff(a, b, vat, sim, party);
    }
    if strength.Some? {
      PointsAreScore(a, b, strength.value);
      RoundsToSixty(Score(a, b, strength.value));
    }
    hide OneParty, PartyStrength, Points, Score, Round;
  }

  lemma RoundsToSixty(x: real)
    ensures Round(x) >= 60 <==> x >= 59.5
  {}

  /** Two documents are in the cross-contact report together exactly when they are comparable and score
      enough. */
  lemma CrossReportedExactly(
    txs: seq<Doc>, vat: map<string, string>, sim: Similarity, s: Settings, i: nat, j: nat)
    requires UniqueIds(txs) && i < j < |txs| && forall x, y :: 0.0 <= sim(x, y) <= 1.0
    ensures var (a, b) := if txs[i].day <= txs[j].day then (txs[i], txs[j]) else (txs[j], txs[i]);
      (exists f :: f in AllCrossDuplicates(txs, vat, sim, s) && Names(f, txs[i], txs[j])) <==>
        CrossComparable(a, b, s) && ScoresEnough(a, b, vat, sim)
  {
    var (a, b) := if txs[i].day <= txs[j].day then (txs[i], txs[j]) else (txs[j], txs[i]);
    EnoughIff(a, b, vat, sim);
    KeyIsContact(a, b);
    CrossPairReportedIff(txs, vat, sim, s, i, j);
    hide AllCrossDuplicates, PartyStrength, Points, Round, ScoresEnough, OneContact, ContactKey, UniqueIds;
  }

  // ----- What a flag says ----------------------------------------------------------------------

  /** The flag of document `i` against document `j`. */
  predicate DescribesCross(f: Flag, txs: seq<Doc>, i: nat, j: nat)
    requires i < |txs| && j < |txs|
  {
    && f.docId == txs[i].id && f.duplicateOf == txs[j].id
    && f.partnerDay == txs[j].day && f.daysApart == Abs(txs[j].day - txs[i].day)
    && f.issue == IssueOf(txs[i]) && f.crossContact && f.tier == Review
    && f.likelyOriginal == Some(KeptOver(txs, i, j))
  }

  lemma CrossSideDescribes(txs: seq<Doc>, i: nat, j: nat, c: int, days: int)
    requires i < |txs| && j < |txs| && days == Abs(txs[j].day - txs[i].day)
    ensures DescribesCross(CrossSide(txs[i], txs[j], KeptOver(txs, i, j), c, days), txs, i, j)
  {
    hide KeptOver;
  }

  lemma CrossPairDescribes(
    txs: seq<Doc>, vat: map<string, string>, sim: Similarity, s: Settings, f: Flag, i: nat, j: nat)
    requires i < |txs| && j < |txs| && Precedes(txs, i, j) && txs[i].docType == txs[j].docType
    requires txs[i].id != txs[j].id && f in CheckCrossPair(txs[i], txs[j], vat, sim, s)
    ensures f.docId == txs[i].id ==> DescribesCross(f, txs, i, j)
    ensures f.docId == txs[j].id ==> DescribesCross(f, txs, j, i)
    ensures var party := PartyStrength(txs[i], txs[j], vat, sim);
      party.Some? && f.confidence == Confidence(Points(txs[i], txs[j], party.value))
  {
    FirstIsKept(txs, i, j);
    CrossSideDescribes(txs, i, j, f.confidence, txs[j].day - txs[i].day);
    CrossSideDescribes(txs, j, i, f.confidence, txs[j].day - txs[i].day);
    hide PartyStrength, Points, Confidence, PassesCrossGates;
    hide FirstIsOriginal, KeptOver, DescribesCross, DuplicateTypeOf;
    var fs := CheckCrossPair(txs[i], txs[j], vat, sim, s);
    assert |fs| == 2 && (f == fs[0] || f == fs[1]);
  }

  /** Its confidence is the score of the pair, which never exceeds 100, to the nearest whole number. */
  ghost predicate ScoredFor(f: Flag, a: Doc, b: Doc, vat: map<string, string>, sim: Similarity) {
    exists party :: OneParty(a, b, vat, sim, party) && Nearest(Score(a, b, party), f.confidence)
  }

  lemma ConfidenceIsScore(a: Doc, b: Doc, party: real, n: int)
    requires 0.0 <= party <= 1.0 && n == Confidence(Points(a, b, party))
    ensures Nearest(Score(a, b, party), n)
  {
    ScoreCeilings(a, b, party);
    PointsAreScore(a, b, party);
    RoundIsNearest(Score(a, b, party), n);
    hide Points, Score, Round;
  }

  /** Every flag of the report describes its two documents and carries their score. */
  lemma CrossFlagSays(
    txs: seq<Doc>, vat: map<string, string>, sim: Similarity, s: Settings, f: Flag, i: nat, j: nat)
    requires UniqueIds(txs) && i < |txs| && j < |txs| && f in AllCrossDuplicates(txs, vat, sim, s)
    requires f.docId == txs[i].id && f.duplicateOf == txs[j].id && forall x, y :: 0.0 <= sim(x, y) <= 1.0
    ensures DescribesCross(f, txs, i, j)
    ensures var (a, b) := if Precedes(txs, i, j) then (txs[i], txs[j]) else (txs[j], txs[i]);
      ScoredFor(f, a, b, vat, sim)
  {
    CrossNamesPairs(vat, sim, s);
    var k, l := PairBehind(s.window, CrossCheck(vat, sim, s), AmountBlock, txs, f);
    SameTwo(txs, f, i, j, k, l);
    var (p, q) := if Precedes(txs, i, j) then (i, j) else (j, i);
    hide UniqueIds, AllCrossDuplicates, CheckCrossPair, DescribesCross, NamesPair, PartyStrength;
    CrossPairDescribes(txs, vat, sim, s, f, p, q);
    var party := PartyStrength(txs[p], txs[q], vat, sim).value;
    OnePartyIff(txs[p], txs[q], vat, sim, party);
    StrengthInUnit(txs[p], txs[q], vat, sim, party);
    ConfidenceIsScore(txs[p], txs[q], party, f.confidence);
    hide OneParty, Nearest, Score;
    assert ScoredFor(f, txs[p], txs[q], vat, sim);
  }

  lemma StrengthInUnit(a: Doc, b: Doc, vat: map<string, string>, sim: Similarity, party: real)
    requires OneParty(a, b, vat, sim, party) && forall x, y :: 0.0 <= sim(x, y) <= 1.0
    ensures 0.0 <= party <= 1.0
  {
    hide Registered;
  }
}
