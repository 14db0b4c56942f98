/** What it takes for two documents of one contact to be reported as duplicates, and what their flags say, told
    from the fields of the documents. */
module DuplicateEvidence {
  import opened Wrappers
  import opened Documents
  import opened Grouping
  import opened Issues
  import opened Median
  import opened PairSweep
  import opened Duplicates
  import opened DuplicateOrder

  // ----- Signals -------------------------------------------------------------------------------

  predicate Agree(u: string, v: string) {
    u != "" && u == v
  }

  predicate Clash(u: string, v: string) {
    u != "" && v != "" && u != v
  }

  predicate Bill(d: Doc) {
    d.docType == AccPay || d.docType == AccPayCredit
  }

  predicate CreditNote(d: Doc) {
    d.docType == AccRecCredit || d.docType == AccPayCredit
  }

  predicate Settled(d: Doc) {
    d.status == Paid || (d.amountDue == Some(0) && d.amount > 0)
  }

  /** The numbers that identify a document clash: supplier references on bills, invoice numbers elsewhere. */
  predicate IdentifiersClash(a: Doc, b: Doc) {
    if Bill(a) then Clash(a.reference, b.reference) else Clash(a.invoiceNumber, b.invoiceNumber)
  }

  /** One contact id, or without ids one name. The last two cases are an id that spells out a name. */
  predicate OneContact(x: Doc, y: Doc) {
    if x.contactId != "" && y.contactId != "" then x.contactId == y.contactId
    else if x.contactId == "" && y.contactId == "" then x.vendorName == y.vendorName
    else if x.contactId == "" then y.contactId == "name:" + x.vendorName
    else x.contactId == "name:" + y.vendorName
  }

  lemma KeyIsContact(x: Doc, y: Doc)
    ensures ContactKey(x) == ContactKey(y) <==> OneContact(x, y)
  {
    assert ("name:" + x.vendorName)[5..] == x.vendorName && ("name:" + y.vendorName)[5..] == y.vendorName;
  }

  lemma SameBlockIff(x: Doc, y: Doc)
    ensures SameBlock(BlockKey, x, y) <==> x.docType == y.docType && x.docType != NoType && OneContact(x, y)
  {
    KeyIsContact(x, y);
    hide ContactKey, OneContact;
  }

  // ----- Recurring charges ---------------------------------------------------------------------

  /** The documents of the series of `a`: its contact, type and amount. */
  predicate InSeries(x: Doc, a: Doc) {
    x.docType == a.docType && OneContact(x, a) && x.amount == a.amount
  }

  ghost function Series(txs: seq<Doc>, a: Doc): set<int> {
    set k | 0 <= k < |txs| && InSeries(txs[k], a)
  }

  predicate Rising(dates: seq<int>) {
    forall i, j :: 0 <= i < j < |dates| ==> dates[i] < dates[j]
  }

  function Steps(dates: seq<int>): seq<int> {
    if |dates| < 2 then [] else [dates[1] - dates[0]] + Steps(dates[1..])
  }

  ghost predicate DatedOn(txs: seq<Doc>, a: Doc, day: int) {
    exists k :: 0 <= k < |txs| && InSeries(txs[k], a) && txs[k].day == day
  }

  /** `dates` are the days of the series of `a`, each once, and `gaps` the steps between them by size. */
  ghost predicate IsTimeline(txs: seq<Doc>, a: Doc, dates: seq<int>, gaps: seq<int>) {
    && Rising(dates) && (forall day :: day in dates <==> DatedOn(txs, a, day))
    && Ascending(gaps) && multiset(gaps) == multiset(Steps(dates))
  }

  /** At least three quarters of the median step of a series of three documents or more, else two weeks. */
  predicate SpacedApart(size: int, gaps: seq<int>, days: int) {
    if size >= 3 && gaps != [] then 4 * (2 * days) >= 3 * Middle(gaps) else days >= 14
  }

  function SeriesKey(d: Doc): Option<((string, DocType), int)> {
    if BlockKey(d).None? then None else Some((BlockKey(d).value, d.amount))
  }

  lemma {:induction false} BucketOfBucket(xs: seq<Doc>, block: (string, DocType), amount: int)
    ensures Bucket(Bucket(xs, BlockKey, block), AmountKey, amount) == Bucket(xs, SeriesKey, (block, amount))
  {
    hide BlockKey;
    if xs != [] {
      BucketOfBucket(xs[1..], block, amount);
      var rest := Bucket(xs[1..], BlockKey, block);
      assert ([xs[0]] + rest)[1..] == rest;
    }
  }

  lemma KeyOfSeries(x: Doc, a: Doc)
    requires a.docType != NoType
    ensures SeriesKey(x) == Some((BlockKey(a).value, a.amount)) <==> InSeries(x, a)
  {
    KeyIsContact(x, a);
    hide ContactKey, OneContact;
  }

  ghost function SeriesOf(txs: seq<Doc>, a: Doc): seq<Doc>
    requires a.docType != NoType
  {
    Bucket(Bucket(txs, BlockKey, BlockKey(a).value), AmountKey, a.amount)
  }

  lemma SeriesSize(txs: seq<Doc>, a: Doc)
    requires a.docType != NoType
    ensures |SeriesOf(txs, a)| == |Series(txs, a)|
  {
    var k := (BlockKey(a).value, a.amount);
    BucketOfBucket(txs, k.0, k.1);
    BucketSize(txs, SeriesKey, k);
    hide Bucket, SeriesKey, InSeries, BlockKey;
    forall i | 0 <= i < |txs|
      ensures SeriesKey(txs[i]) == Some(k) <==> InSeries(txs[i], a)
    {
      KeyOfSeries(txs[i], a);
    }
    assert Series(txs, a) == Places(txs, SeriesKey, k);
  }

  lemma SeriesDays(txs: seq<Doc>, a: Doc, day: int)
    requires a.docType != NoType
    ensures day in Days(SeriesOf(txs, a)) <==> DatedOn(txs, a, day)
  {
    var k := (BlockKey(a).value, a.amount);
    BucketOfBucket(txs, k.0, k.1);
    var series := SeriesOf(txs, a);
    hide Bucket, SeriesKey, InSeries, BlockKey, SeriesOf;
    if i :| 0 <= i < |txs| && InSeries(txs[i], a) && txs[i].day == day {
      KeyOfSeries(txs[i], a);
      BucketMember(txs, SeriesKey, k, i);
      var j :| 0 <= j < |series| && series[j] == txs[i];
      assert Days(series)[j] == day;
    }
    if day in Days(series) {
      var j :| 0 <= j < |series| && Days(series)[j] == day;
      assert series[j] in series;
      KeyOfSeries(series[j], a);
      var i :| 0 <= i < |txs| && txs[i] == series[j];
      assert DatedOn(txs, a, day);
    }
  }

  lemma LeastOfBoth(s: seq<int>, dates: seq<int>)
    requires Ascending(s) && Rising(dates) && s != [] && forall d :: d in dates <==> d in s
    ensures dates != [] && dates[0] == s[0]
  {
    assert s[0] in s && s[0] in dates;
    assert dates[0] in dates && dates[0] in s;
  }

  lemma FirstTwo(xs: seq<int>)
    ensures xs != [] ==> xs[0] in xs
    ensures |xs| > 1 ==> xs[1] in xs
  {}

  /** The positive gaps of sorted days are the steps between the different days. */
  lemma {:induction false} GapsAreSteps(s: seq<int>, dates: seq<int>)
    requires Ascending(s) && Rising(dates) && forall d :: d in dates <==> d in s
    ensures PositiveGaps(s) == Steps(dates)
  {
    FirstTwo(dates);
    if s != [] {
      LeastOfBoth(s, dates);
      AscendingHead(s);
      if |s| == 1 {
        assert forall d :: d in s ==> d == s[0];
      } else if s[1] == s[0] {
        assert s == [s[0]] + s[1..] && s[1] in s[1..];
        GapsAreSteps(s[1..], dates);
      } else {
        RestOfBoth(s, dates);
        GapsAreSteps(s[1..], dates[1..]);
        LeastOfBoth(s[1..], dates[1..]);
      }
    }
  }

  lemma RestOfBoth(s: seq<int>, dates: seq<int>)
    requires Ascending(s) && Rising(dates) && |s| >= 2 && s[1] != s[0] && forall d :: d in dates <==> d in s
    requires dates != [] && dates[0] == s[0]
    ensures Rising(dates[1..]) && forall d :: d in dates[1..] <==> d in s[1..]
  {
    forall d
      ensures d in dates[1..] <==> d in s[1..]
    {
      assert d in s <==> d == s[0] || d in s[1..];
      assert d in dates <==> d == dates[0] || d in dates[1..];
      assert s[0] !in s[1..] && dates[0] !in dates[1..];
    }
  }

  /** What the search learns of a series is the sum of the two middle steps, if there are enough. */
  lemma CadenceIs(txs: seq<Doc>, a: Doc, dates: seq<int>, gaps: seq<int>)
    requires a.docType != NoType && IsTimeline(txs, a, dates, gaps)
    ensures CadenceFor(txs, a) ==
      if |Series(txs, a)| >= 3 && gaps != [] then Some(Middle(gaps)) else None
  {
    hide *;
    SeriesSize(txs, a);
    SeriesGaps(txs, a, dates, gaps);
    CadenceOf(txs, a);
    MiddleSteps(SeriesOf(txs, a), Steps(dates), gaps) by {
      TimelineGaps(txs, a, dates, gaps);
    }
  }

  lemma CadenceOf(txs: seq<Doc>, a: Doc)
    requires a.docType != NoType
    ensures CadenceFor(txs, a) == SeriesCadence(SeriesOf(txs, a))
  {
    hide SeriesCadence, Bucket;
  }

  lemma SeriesGaps(txs: seq<Doc>, a: Doc, dates: seq<int>, gaps: seq<int>)
    requires a.docType != NoType && IsTimeline(txs, a, dates, gaps)
    ensures PositiveGaps(Sort(Days(SeriesOf(txs, a)))) == Steps(dates)
  {
    var days := Days(SeriesOf(txs, a));
    SortAscending(days);
    hide SeriesOf, Sort, PositiveGaps, Steps, Days, DatedOn;
    forall d
      ensures d in dates <==> d in Sort(days)
    {
      SeriesDays(txs, a, d);
      assert d in Sort(days) <==> d in multiset(Sort(days));
    }
    GapsAreSteps(Sort(days), dates);
  }

  lemma TimelineGaps(txs: seq<Doc>, a: Doc, dates: seq<int>, gaps: seq<int>)
    requires IsTimeline(txs, a, dates, gaps)
    ensures Ascending(gaps) && multiset(gaps) == multiset(Steps(dates))
  {}

  lemma MiddleSteps(series: seq<Doc>, steps: seq<int>, gaps: seq<int>)
    requires PositiveGaps(Sort(Days(series))) == steps && Ascending(gaps) && multiset(gaps) == multiset(steps)
    ensures SeriesCadence(series) == if |series| >= 3 && gaps != [] then Some(Middle(gaps)) else None
  {
    MiddleOf(steps, gaps);
    hide Sort, PositiveGaps, Days, Twice, Ascending, Middle;
  }

  lemma MiddleOf(steps: seq<int>, gaps: seq<int>)
    requires Ascending(gaps) && multiset(gaps) == multiset(steps)
    ensures |gaps| == |steps|
    ensures gaps != [] ==> Twice(steps) == Middle(gaps)
  {
    SameLength(gaps, steps);
    hide Twice, Ascending;
    if gaps != [] {
      MedianIs(steps, gaps);
    }
  }

  /** A pair is taken for a recurring charge exactly when it has one amount and no invoice number in common and
      its dates are as far apart as its series, or the fortnight, asks. */
  lemma RecurringIff(txs: seq<Doc>, a: Doc, b: Doc, dates: seq<int>, gaps: seq<int>)
    requires a.docType != NoType && IsTimeline(txs, a, dates, gaps)
    ensures Recurring(a, b, CadenceFor(txs, a)) <==>
      && a.amount == b.amount && !Agree(a.invoiceNumber, b.invoiceNumber)
      && SpacedApart(|Series(txs, a)|, gaps, b.day - a.day)
  {
    CadenceIs(txs, a, dates, gaps);
    hide CadenceFor, Series, IsTimeline;
  }

  lemma {:induction false} RisingOf(s: seq<int>) returns (dates: seq<int>)
    requires Ascending(s)
    ensures Rising(dates) && forall d :: d in dates <==> d in s
  {
    if s == [] {
      dates := [];
    } else {
      AscendingHead(s);
      var rest := RisingOf(s[1..]);
      dates := PutFirst(s[0], rest);
      hide Rising, Ascending;
      assert s == [s[0]] + s[1..];
    }
  }

  lemma PutFirst(x: int, rest: seq<int>) returns (dates: seq<int>)
    requires Rising(rest) && forall d :: d in rest ==> x <= d
    ensures Rising(dates) && forall d :: d in dates <==> d == x || d in rest
  {
    if x in rest {
      dates := rest;
    } else {
      dates := [x] + rest;
      RisingCons(x, rest);
      hide Rising;
    }
  }

  lemma RisingCons(x: int, rest: seq<int>)
    requires Rising(rest) && forall d :: d in rest ==> x < d
    ensures Rising([x] + rest)
  {
    var dates := [x] + rest;
    forall i, j | 0 <= i < j < |dates|
      ensures dates[i] < dates[j]
    {
      assert dates[j] == rest[j - 1] && rest[j - 1] in rest;
      assert i > 0 ==> dates[i] == rest[i - 1];
    }
  }

  /** Every document has a timeline. */
  lemma TimelineOf(txs: seq<Doc>, a: Doc) returns (dates: seq<int>, gaps: seq<int>)
    requires a.docType != NoType
    ensures IsTimeline(txs, a, dates, gaps)
  {
    var days := Days(SeriesOf(txs, a));
    SortAscending(days);
    dates := RisingOf(Sort(days));
    SortAscending(Steps(dates));
    gaps := Sort(Steps(dates));
    forall d
      ensures d in dates <==> DatedOn(txs, a, d)
    {
      SeriesDays(txs, a, d);
      assert d in Sort(days) <==> d in multiset(Sort(days));
    }
  }

  lemma {:induction false} StepsArePositive(dates: seq<int>)
    requires Rising(dates)
    ensures forall g :: g in Steps(dates) ==> g > 0
  {
    if |dates| >= 2 {
      StepsArePositive(dates[1..]);
    }
  }

  lemma PositiveTimeline(txs: seq<Doc>, a: Doc, dates: seq<int>, gaps: seq<int>)
    requires IsTimeline(txs, a, dates, gaps)
    ensures forall i :: 0 <= i < |gaps| ==> gaps[i] > 0
  {
    StepsArePositive(dates);
    hide Steps, DatedOn;
    forall i | 0 <= i < |gaps|
      ensures gaps[i] > 0
    {
      assert gaps[i] in multiset(gaps) && gaps[i] in multiset(Steps(dates));
      assert gaps[i] in Steps(dates);
    }
  }

  /** Two documents of one day are never taken for a recurring charge, whatever their series. */
  lemma SameDayIsNoRecurrence(txs: seq<Doc>, a: Doc, b: Doc)
    requires a.docType != NoType && a.day == b.day
    ensures !Recurring(a, b, CadenceFor(txs, a)) && Judge(a, b, CadenceFor(txs, a)).1 != Low
  {
    var dates, gaps := TimelineOf(txs, a);
    RecurringIff(txs, a, b, dates, gaps);
    PositiveTimeline(txs, a, dates, gaps);
    hide CadenceFor, IsTimeline, Series, Recurring, SameInvoiceNumber, MatchReferences, DifferentIdentifiers;
  }

  /** What is far enough apart for a recurring charge stays so at any larger distance. */
  lemma LaterStaysRecurring(txs: seq<Doc>, a: Doc, b: Doc, later: Doc)
    requires Recurring(a, b, CadenceFor(txs, a))
    requires later.amount == b.amount && !Agree(a.invoiceNumber, later.invoiceNumber) && later.day >= b.day
    ensures Recurring(a, later, CadenceFor(txs, a))
  {
    hide CadenceFor;
  }

  // ----- What a pair is worth ------------------------------------------------------------------

  /** The confidence and tier of a pair; `spaced` when it is as far apart as a recurring charge. */
  predicate Earns(a: Doc, b: Doc, spaced: bool, confidence: int, tier: Tier) {
    var number := Agree(a.invoiceNumber, b.invoiceNumber);
    var reference, clash := Agree(a.reference, b.reference), IdentifiersClash(a, b);
    var plain := !number && a.amount == b.amount && !spaced;
    match confidence
    case 100 => tier == High && (number || (plain && Bill(a) && reference))
    case 95 => tier == High && plain && clash && a.day == b.day
    case 90 => tier == High && plain && !Bill(a) && reference && !clash
    case 75 => tier == Medium && plain && !reference && !clash
    case 70 => tier == Medium && plain && clash && a.day != b.day
    case 65 => tier == Medium && !number && a.amount != b.amount
    case 45 => tier == Low && !number && a.amount == b.amount && spaced
    case _ => false
  }

  lemma EarnsIff(a: Doc, b: Doc, cadence: Option<int>, spaced: bool, confidence: int, tier: Tier)
    requires a.docType == b.docType
    requires Recurring(a, b, cadence) <==>
      a.amount == b.amount && !Agree(a.invoiceNumber, b.invoiceNumber) && spaced
    ensures Judge(a, b, cadence) == (confidence, tier) <==> Earns(a, b, spaced, confidence, tier)
  {
    hide Recurring;
  }

  /** Which pairs are compared at all. */
  predicate GatesOpen(a: Doc, b: Doc, s: Settings) {
    && (s.requireSameAmount ==> a.amount == b.amount)
    && (s.requireExactReference && !Bill(a) && Clash(a.reference, b.reference) ==>
          Agree(a.invoiceNumber, b.invoiceNumber))
    && (Settled(a) && Settled(b) ==> s.alsoCheckPaid || CreditNote(a))
  }

  lemma GatesOpenIff(a: Doc, b: Doc, s: Settings)
    ensures PassesGates(a, b, s) <==> GatesOpen(a, b, s)
  {}

  /** What the report asks of two documents, `a` not dated after `b`. */
  ghost predicate Comparable(a: Doc, b: Doc, s: Settings) {
    && a.docType == b.docType && a.docType != NoType && OneContact(a, b)
    && b.day - a.day <= s.window && GatesOpen(a, b, s)
  }

  lemma ContactIsSymmetric(a: Doc, b: Doc)
    ensures OneContact(a, b) <==> OneContact(b, a)
  {}

  /** The pair earns at least the bar. */
  ghost predicate Reaches(a: Doc, b: Doc, spaced: bool, bar: int) {
    exists confidence, tier :: Earns(a, b, spaced, confidence, tier) && confidence >= bar
  }

  /** `a` and `b` are as far apart as a recurring charge of the series of `a`. */
  ghost predicate Spaced(txs: seq<Doc>, a: Doc, b: Doc, gaps: seq<int>) {
    SpacedApart(|Series(txs, a)|, gaps, b.day - a.day)
  }

  lemma PairEarnsIff(txs: seq<Doc>, s: Settings, a: Doc, b: Doc, dates: seq<int>, gaps: seq<int>)
    requires SameBlock(BlockKey, a, b) && IsTimeline(txs, a, dates, gaps)
    ensures CheckPair(a, b, CadenceFor(txs, a), s) != [] <==>
      GatesOpen(a, b, s) && Reaches(a, b, Spaced(txs, a, b, gaps), s.minConfidence)
  {
    GatesOpenIff(a, b, s);
    JudgeEarns(txs, a, b, dates, gaps);
    var (confidence, tier) := Judge(a, b, CadenceFor(txs, a));
    hide Judge, PassesGates, GatesOpen, CadenceFor, IsTimeline, Spaced, FirstIsOriginal, BlockKey, Earns;
    assert Earns(a, b, Spaced(txs, a, b, gaps), confidence, tier);
  }

  /** A pair earns one confidence and one tier: those of the waterfall. */
  lemma JudgeEarns(txs: seq<Doc>, a: Doc, b: Doc, dates: seq<int>, gaps: seq<int>)
    requires SameBlock(BlockKey, a, b) && IsTimeline(txs, a, dates, gaps)
    ensures forall c, t :: Earns(a, b, Spaced(txs, a, b, gaps), c, t) <==> Judge(a, b, CadenceFor(txs, a)) == (c, t)
  {
    SameBlockIff(a, b);
    RecurringIff(txs, a, b, dates, gaps);
    hide Judge, CadenceFor, IsTimeline, Series, SpacedApart, BlockKey, OneContact, Earns, Recurring, Agree;
    forall c, t
      ensures Earns(a, b, Spaced(txs, a, b, gaps), c, t) <==> Judge(a, b, CadenceFor(txs, a)) == (c, t)
    {
      EarnsIff(a, b, CadenceFor(txs, a), Spaced(txs, a, b, gaps), c, t);
    }
  }

  /** Two documents are in the report together exactly when they are comparable and what they earn reaches the
      bar. */
  lemma ReportedIff(txs: seq<Doc>, s: Settings, i: nat, j: nat, dates: seq<int>, gaps: seq<int>)
    requires UniqueIds(txs) && i < j < |txs|
    requires IsTimeline(txs, if txs[i].day <= txs[j].day then txs[i] else txs[j], dates, gaps)
    ensures var (a, b) := if txs[i].day <= txs[j].day then (txs[i], txs[j]) else (txs[j], txs[i]);
      (exists f :: f in AllDuplicates(txs, s) && Names(f, txs[i], txs[j])) <==>
        Comparable(a, b, s) && Reaches(a, b, Spaced(txs, a, b, gaps), s.minConfidence)
  {
    var (a, b) := if txs[i].day <= txs[j].day then (txs[i], txs[j]) else (txs[j], txs[i]);
    SameBlockIff(a, b);
    SameBlockIff(txs[i], txs[j]);
    ContactIsSymmetric(a, b);
    if SameBlock(BlockKey, a, b) {
      PairEarnsIff(txs, s, a, b, dates, gaps);
    }
    DuplicatesNamePairs(txs, s);
    hide CheckPair, CadenceFor, BlockKey, UniqueIds, OneContact, NamesPair, Spaced, Reaches, IsTimeline, GatesOpen;
    ReportedTogetherIff(s.window, ReferenceCheck(txs, s), BlockKey, txs, i, j);
  }

  // ----- What a flag says ----------------------------------------------------------------------

  /** Of two copies `i` is the one to keep: the settled one, else the one posted on an earlier day, else the
      one dated first, else the first of the feed. */
  predicate KeptOver(txs: seq<Doc>, i: nat, j: nat)
    requires i < |txs| && j < |txs|
  {
    var x, y := txs[i], txs[j];
    if Settled(x) != Settled(y) then
      Settled(x)
    else if x.postedDay.Some? && y.postedDay.Some? && x.postedDay.value != y.postedDay.value then
      x.postedDay.value < y.postedDay.value
    else
      x.day < y.day || (x.day == y.day && i < j)
  }

  function IssueOf(d: Doc): IssueType {
    if CreditNote(d) then DuplicateCreditNote
    else if d.docType == AccRec then DuplicateInvoice
    else DuplicateBill
  }

  /** The flag of document `i` against document `j`. */
  predicate Describes(f: Flag, txs: seq<Doc>, i: nat, j: nat)
    requires i < |txs| && j < |txs|
  {
    && f.docId == txs[i].id && f.duplicateOf == txs[j].id
    && f.partnerDay == txs[j].day && f.daysApart == Abs(txs[j].day - txs[i].day)
    && f.issue == IssueOf(txs[i]) && !f.crossContact
    && f.likelyOriginal == if f.tier == High then Some(KeptOver(txs, i, j)) else None
  }

  lemma FirstIsKept(txs: seq<Doc>, i: nat, j: nat)
    requires i < |txs| && j < |txs| && Precedes(txs, i, j)
    ensures FirstIsOriginal(txs[i], txs[j]) <==> KeptOver(txs, i, j)
    ensures KeptOver(txs, i, j) <==> !KeptOver(txs, j, i)
  {}

  /** By date, and on one date by feed. */
  predicate Precedes(txs: seq<Doc>, i: nat, j: nat)
    requires i < |txs| && j < |txs|
  {
    txs[i].day < txs[j].day || (txs[i].day == txs[j].day && i < j)
  }

  lemma SideDescribes(txs: seq<Doc>, i: nat, j: nat, c: int, tier: Tier, days: int)
    requires i < |txs| && j < |txs| && days == Abs(txs[j].day - txs[i].day)
    ensures Describes(OneSide(txs[i], txs[j], KeptOver(txs, i, j), c, tier, days), txs, i, j)
  {
    hide KeptOver;
  }

  /** The two flags of a pair, `i` before `j`. */
  lemma PairDescribes(txs: seq<Doc>, s: Settings, f: Flag, i: nat, j: nat)
    requires i < |txs| && j < |txs| && Precedes(txs, i, j) && txs[i].docType == txs[j].docType
    requires txs[i].id != txs[j].id && f in CheckPair(txs[i], txs[j], CadenceFor(txs, txs[i]), s)
    ensures f.docId == txs[i].id ==> Describes(f, txs, i, j)
    ensures f.docId == txs[j].id ==> Describes(f, txs, j, i)
    ensures Judge(txs[i], txs[j], CadenceFor(txs, txs[i])) == (f.confidence, f.tier)
  {
    FirstIsKept(txs, i, j);
    var (c, tier) := Judge(txs[i], txs[j], CadenceFor(txs, txs[i]));
    SideDescribes(txs, i, j, c, tier, txs[j].day - txs[i].day);
    SideDescribes(txs, j, i, c, tier, txs[j].day - txs[i].day);
    FlagIsSide(txs[i], txs[j], CadenceFor(txs, txs[i]), s, f);
    hide Judge, CadenceFor, CheckPair, FirstIsOriginal, KeptOver, Describes, DuplicateTypeOf, Precedes, Abs;
  }

  lemma FlagIsSide(a: Doc, b: Doc, cadence: Option<int>, s: Settings, f: Flag)
    requires f in CheckPair(a, b, cadence, s)
    ensures var (c, tier) := Judge(a, b, cadence);
      || f == OneSide(a, b, FirstIsOriginal(a, b), c, tier, b.day - a.day)
      || f == OneSide(b, a, !FirstIsOriginal(a, b), c, tier, b.day - a.day)
  {
    hide Judge, PassesGates, FirstIsOriginal, DuplicateTypeOf;
    var fs := CheckPair(a, b, cadence, s);
    assert |fs| == 2 && (f == fs[0] || f == fs[1]);
  }

  /** Every flag of the report describes its two documents and carries what they earn. */
  lemma FlagSays(txs: seq<Doc>, s: Settings, f: Flag, i: nat, j: nat, dates: seq<int>, gaps: seq<int>)
    requires UniqueIds(txs) && i < |txs| && j < |txs| && f in AllDuplicates(txs, s)
    requires f.docId == txs[i].id && f.duplicateOf == txs[j].id
    requires IsTimeline(txs, if Precedes(txs, i, j) then txs[i] else txs[j], dates, gaps)
    ensures Describes(f, txs, i, j)
    ensures var (a, b) := if Precedes(txs, i, j) then (txs[i], txs[j]) else (txs[j], txs[i]);
      Earns(a, b, Spaced(txs, a, b, gaps), f.confidence, f.tier)
  {
    var k, l := DocumentsOf(txs, s, f);
    SameTwo(txs, f, i, j, k, l);
    var (p, q) := if Precedes(txs, i, j) then (i, j) else (j, i);
    hide UniqueIds, AllDuplicates, IsTimeline, CheckPair, CadenceFor, BlockKey, Spaced, Describes, Earns;
    PairDescribes(txs, s, f, p, q);
    JudgeEarns(txs, txs[p], txs[q], dates, gaps);
  }

  lemma SameTwo(txs: seq<Doc>, f: Flag, i: nat, j: nat, k: nat, l: nat)
    requires UniqueIds(txs) && i < |txs| && j < |txs| && k < l < |txs|
    requires f.docId == txs[i].id && f.duplicateOf == txs[j].id && Names(f, txs[k], txs[l])
    ensures (i == k && j == l) || (i == l && j == k)
    ensures txs[k].id != txs[l].id
  {}
}
