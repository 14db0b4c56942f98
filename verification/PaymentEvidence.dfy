/** Which payments are reported as unusual and why, told from the documents and their lines. */
module PaymentEvidence {
  import opened Wrappers
  import opened Documents
  import opened Grouping
  import opened UnusualPayments

  predicate IsPayment(d: Doc) {
    d.docType == AccPay || d.docType == Spend
  }

  // ----- How often a supplier is paid -------------------------------------------------------------

  /** One contact id, or one name where ids are missing; a name also stands for an id that spells it. */
  predicate OneSupplier(x: Doc, y: Doc) {
    if x.contactId != "" && y.contactId != "" then x.contactId == y.contactId
    else if x.contactId != "" then x.contactId == y.vendorName
    else if y.contactId != "" then x.vendorName == y.contactId
    else x.vendorName == y.vendorName
  }

  ghost function PaymentsTo(txs: seq<Doc>, d: Doc): set<int> {
    set k | 0 <= k < |txs| && IsPayment(txs[k]) && OneSupplier(txs[k], d)
  }

  function PaymentKey(d: Doc): Option<string> {
    if IsPayment(d) then SupplierKey(d) else None
  }

  lemma PaymentsSnoc(txs: seq<Doc>, d: Doc)
    ensures Payments(txs + [d]) == if IsPayment(d) then Payments(txs) + [d] else Payments(txs)
  {
    assert (txs + [d])[..|txs|] == txs;
    assert Payments(txs) + [] == Payments(txs);
  }

  /** The payments of a supplier, once among the payments and once among all documents. */
  ghost predicate OneBucket(payments: seq<Doc>, txs: seq<Doc>, k: string) {
    Bucket(payments, SupplierKey, k) == Bucket(txs, PaymentKey, k)
  }

  lemma OneMorePayment(payments: seq<Doc>, txs: seq<Doc>, d: Doc, k: string)
    requires OneBucket(payments, txs, k)
    ensures OneBucket(if IsPayment(d) then payments + [d] else payments, txs + [d], k)
  {
    BucketSnoc(txs, d, PaymentKey, k);
    BucketSnoc(payments, d, SupplierKey, k);
    hide Bucket, SupplierKey;
  }

  lemma {:induction false} BucketOfPayments(txs: seq<Doc>, k: string)
    ensures OneBucket(Payments(txs), txs, k)
  {
    if txs != [] {
      hide OneBucket, Payments;
      var init, d := txs[..|txs| - 1], txs[|txs| - 1];
      BucketOfPayments(init, k);
      PaymentsSnoc(init, d);
      OneMorePayment(Payments(init), init, d, k);
      assert txs == init + [d];
    }
  }

  lemma CountOfIs(txs: seq<Doc>, d: Doc)
    ensures CountOf(Payments(txs), d) == |PaymentsTo(txs, d)|
  {
    var k := SupplierKey(d).value;
    BucketOfPayments(txs, k);
    BucketSize(txs, PaymentKey, k);
    assert PaymentsTo(txs, d) == Places(txs, PaymentKey, k);
    hide Bucket, Payments;
  }

  // ----- What the payment itself looks like --------------------------------------------------------

  /** What an unclear description, the amount and the number of payments to the supplier call for. */
  predicate CallsFor(d: Doc, count: int, unclear: bool, s: Settings, reason: Reason) {
    match reason
    case UnidentifiedSupplier => unclear && count == 1
    case UnclearDescription => unclear && count != 1
    case OneOffSupplier =>
      !unclear && (d.amount >= s.large || d.amount <= -s.large) && count <= s.oneOffMaxCount
    case LargeVsAccount => false
  }

  lemma JudgeIs(d: Doc, count: int, unclear: Doc -> bool, s: Settings, reason: Reason)
    ensures JudgePayment(d, count, unclear, s) == Some(reason) <==> CallsFor(d, count, unclear(d), s, reason)
  {}

  /** The finding of the first pass for a payment. */
  predicate Describes(f: Finding, d: Doc) {
    f.docId == d.id && f.amount == Abs(d.amount) && f.account == d.accountCode
  }

  ghost predicate FirstFor(f: Finding, all: seq<Doc>, d: Doc, unclear: Doc -> bool, s: Settings) {
    JudgePayment(d, CountOf(all, d), unclear, s) == Some(f.reason) && Describes(f, d)
  }

  lemma {:induction false} FirstPassIff(
    all: seq<Doc>, payments: seq<Doc>, unclear: Doc -> bool, s: Settings, f: Finding)
    ensures f in FirstPass(all, payments, unclear, s) <==>
      exists d :: d in payments && FirstFor(f, all, d, unclear, s)
  {
    hide JudgePayment, CountOf;
    if payments != [] {
      var init, d := payments[..|payments| - 1], payments[|payments| - 1];
      FirstPassIff(all, init, unclear, s, f);
      assert payments == init + [d];
      assert f in FirstPass(all, payments, unclear, s) <==>
        f in FirstPass(all, init, unclear, s) || FirstFor(f, all, d, unclear, s);
      assert forall e :: e in payments <==> e in init || e == d;
    }
  }

  lemma {:induction false} InPayments(txs: seq<Doc>, d: Doc)
    ensures d in Payments(txs) <==> d in txs && IsPayment(d)
  {
    if txs != [] {
      InPayments(txs[..|txs| - 1], d);
      assert txs == txs[..|txs| - 1] + [txs[|txs| - 1]];
    }
  }

  /** The second pass keeps the findings of the first and adds none but large ones. */
  lemma {:induction false} SecondKeepsFirst(
    payments: seq<Doc>, first: seq<Finding>, usual: string -> Option<Usual>, s: Settings, f: Finding)
    requires f.reason != LargeVsAccount
    ensures f in SecondPass(payments, first, usual, s) <==> f in first
  {
    hide FirstLarge, Ids;
    if payments != [] {
      SecondKeepsFirst(payments[..|payments| - 1], first, usual, s, f);
    }
  }

  lemma FirstFindingIff(txs: seq<Doc>, expense: set<string>, unclear: Doc -> bool, s: Settings, f: Finding)
    requires f.reason != LargeVsAccount
    ensures f in AllUnusual(txs, expense, unclear, s) <==>
      exists d :: d in txs && IsPayment(d) && FirstFor(f, Payments(txs), d, unclear, s)
  {
    var payments := Payments(txs);
    SecondKeepsFirst(payments, FirstPass(payments, payments, unclear, s), UsualIn(payments, expense, s), s, f);
    FirstPassIff(payments, payments, unclear, s, f);
    hide Payments, FirstFor, SecondPass, FirstPass;
    forall d
      ensures d in payments <==> d in txs && IsPayment(d)
    {
      InPayments(txs, d);
    }
  }

  /** A payment is reported for what it looks like exactly when its description, amount and number of payments to
      its supplier call for that reason; the finding gives its amount and account. */
  lemma ReasonIff(txs: seq<Doc>, expense: set<string>, unclear: Doc -> bool, s: Settings, i: nat, f: Finding)
    requires UniqueIds(txs) && i < |txs| && f.reason != LargeVsAccount && f.docId == txs[i].id
    ensures f in AllUnusual(txs, expense, unclear, s) <==>
      && IsPayment(txs[i]) && Describes(f, txs[i])
      && CallsFor(txs[i], |PaymentsTo(txs, txs[i])|, unclear(txs[i]), s, f.reason)
  {
    FirstFindingIff(txs, expense, unclear, s, f);
    CountOfIs(txs, txs[i]);
    JudgeIs(txs[i], CountOf(Payments(txs), txs[i]), unclear, s, f.reason);
    OnlyThis(txs, i);
    hide AllUnusual, JudgePayment, CountOf, Payments, CallsFor, PaymentsTo;
  }

  // ----- Lines far above their account --------------------------------------------------------------

  /** The lines of a document, or the document itself as one. */
  function LinesOf(d: Doc): seq<Line> {
    if d.lines == [] then [Line(d.accountCode, Some(d.amount))] else d.lines
  }

  predicate Posts(l: Line, expense: set<string>, code: string) {
    l.accountCode == code && code != "" && code in expense && l.amount.Some?
  }

  function PostedOf(lines: seq<Line>, expense: set<string>, code: string): seq<Line> {
    if lines == [] then []
    else (if Posts(lines[0], expense, code) then [lines[0]] else []) + PostedOf(lines[1..], expense, code)
  }

  /** The lines of all payments on an expense account. */
  function PostedIn(txs: seq<Doc>, expense: set<string>, code: string): seq<Line> {
    if txs == [] then []
    else
      PostedIn(txs[..|txs| - 1], expense, code)
      + if IsPayment(txs[|txs| - 1]) then PostedOf(LinesOf(txs[|txs| - 1]), expense, code) else []
  }

  lemma {:induction false} PostedIsBucket(lines: seq<Line>, expense: set<string>, code: string)
    ensures Bucket(lines, PostedTo(expense), code) == PostedOf(lines, expense, code)
  {
    if lines != [] {
      PostedIsBucket(lines[1..], expense, code);
    }
  }

  lemma {:induction false} PostingsAre(txs: seq<Doc>, expense: set<string>, code: string)
    ensures AccountPostings(Payments(txs), expense, code) == PostedIn(txs, expense, code)
  {
    if txs != [] {
      var init, d := txs[..|txs| - 1], txs[|txs| - 1];
      PostingsAre(init, expense, code);
      hide Bucket, PostedTo, PostedOf;
      if IsPayment(d) {
        assert Payments(txs)[..|Payments(txs)| - 1] == Payments(init);
        BucketAppend(AllLines(Payments(init)), AccountLines(d), PostedTo(expense), code);
        PostedIsBucket(LinesOf(d), expense, code);
      } else {
        assert Payments(txs) == Payments(init);
      }
    }
  }

  function AbsTotal(lines: seq<Line>): int {
    if lines == [] then 0
    else
      var l := lines[|lines| - 1];
      AbsTotal(lines[..|lines| - 1]) + if l.amount.None? then 0 else if l.amount.value < 0 then -l.amount.value
                                       else l.amount.value
  }

  lemma {:induction false} TotalsAgree(lines: seq<Line>)
    ensures SumAbs(lines) == AbsTotal(lines)
  {
    if lines != [] {
      var init, l := lines[..|lines| - 1], lines[|lines| - 1];
      TotalsAgree(init);
      assert lines == init + [l];
      SumAppend(init, [l]);
      assert [l][1..] == [];
    }
  }

  /** The line is at least `multiple` times the average of the account's lines, of which there are enough. */
  predicate FarAbove(l: Line, postings: seq<Line>, s: Settings) {
    && |postings| >= 1 && |postings| >= s.accountMinTxns && AbsTotal(postings) > 0
    && l.amount.Some? && Abs(l.amount.value) * |postings| * s.multiple.den >= AbsTotal(postings) * s.multiple.num
  }

  lemma LargeIs(txs: seq<Doc>, expense: set<string>, s: Settings, l: Line)
    ensures var level := UsualLevel(Payments(txs), expense, l.accountCode, s);
      level.Some? && Large(l, level.value, s) <==> FarAbove(l, PostedIn(txs, expense, l.accountCode), s)
  {
    PostingsAre(txs, expense, l.accountCode);
    TotalsAgree(PostedIn(txs, expense, l.accountCode));
    hide Payments, PostedIn, AccountPostings, AbsTotal, SumAbs, Abs;
  }

  /** Line `m` is the first of the document that is far above its account. */
  predicate FirstFarAbove(txs: seq<Doc>, expense: set<string>, s: Settings, d: Doc, m: nat) {
    && m < |LinesOf(d)| && FarAbove(LinesOf(d)[m], PostedIn(txs, expense, LinesOf(d)[m].accountCode), s)
    && forall k :: 0 <= k < m ==> !FarAbove(LinesOf(d)[k], PostedIn(txs, expense, LinesOf(d)[k].accountCode), s)
  }

  predicate IsLarge(l: Line, usual: string -> Option<Usual>, s: Settings) {
    usual(l.accountCode).Some? && Large(l, usual(l.accountCode).value, s)
  }

  ghost predicate FirstAt(lines: seq<Line>, usual: string -> Option<Usual>, s: Settings, l: Line, m: nat) {
    && m < |lines| && lines[m] == l && IsLarge(lines[m], usual, s)
    && forall k :: 0 <= k < m ==> !IsLarge(lines[k], usual, s)
  }

  lemma {:induction false} FirstLargeIs(lines: seq<Line>, usual: string -> Option<Usual>, s: Settings, l: Line)
    ensures FirstLarge(lines, usual, s) == Some(l) <==> exists m: nat :: FirstAt(lines, usual, s, l, m)
  {
    hide Large;
    if lines != [] {
      if IsLarge(lines[0], usual, s) {
        assert lines[0] == l ==> FirstAt(lines, usual, s, l, 0);
      } else {
        FirstLargeIs(lines[1..], usual, s, l);
        ShiftFirst(lines, usual, s, l);
      }
    }
  }

  lemma ShiftFirst(lines: seq<Line>, usual: string -> Option<Usual>, s: Settings, l: Line)
    requires lines != [] && !IsLarge(lines[0], usual, s)
    ensures (exists m: nat :: FirstAt(lines, usual, s, l, m)) <==> exists m: nat :: FirstAt(lines[1..], usual, s, l, m)
  {
    hide IsLarge;
    if m: nat :| FirstAt(lines, usual, s, l, m) {
      assert FirstAt(lines[1..], usual, s, l, m - 1);
    }
    if m: nat :| FirstAt(lines[1..], usual, s, l, m) {
      assert FirstAt(lines, usual, s, l, m + 1);
    }
  }

  lemma FirstLargeOfPayment(txs: seq<Doc>, expense: set<string>, s: Settings, d: Doc, l: Line)
    ensures FirstLarge(AccountLines(d), UsualIn(Payments(txs), expense, s), s) == Some(l) <==>
      exists m: nat :: FirstFarAbove(txs, expense, s, d, m) && LinesOf(d)[m] == l
  {
    var usual := UsualIn(Payments(txs), expense, s);
    FirstLargeIs(AccountLines(d), usual, s, l);
    hide FarAbove, PostedIn, UsualLevel, Large, Payments;
    forall line
      ensures IsLarge(line, usual, s) <==> FarAbove(line, PostedIn(txs, expense, line.accountCode), s)
    {
      LargeIs(txs, expense, s, line);
    }
    forall m: nat
      ensures FirstAt(AccountLines(d), usual, s, l, m) <==> FirstFarAbove(txs, expense, s, d, m) && LinesOf(d)[m] == l
    {}
  }

  /** The finding of the second pass for a payment whose first large line is `l`. */
  ghost predicate LargeFor(f: Finding, d: Doc, first: seq<Finding>, usual: string -> Option<Usual>, s: Settings) {
    && d.id !in Ids(first)
    && exists l :: FirstLarge(AccountLines(d), usual, s) == Some(l) && f == LargeFinding(d, l)
  }

  ghost predicate NamedBy(id: string, first: seq<Finding>, payments: seq<Doc>) {
    id in Ids(first) || exists d :: d in payments && d.id == id
  }

  lemma {:induction false} IdsNamed(
    payments: seq<Doc>, first: seq<Finding>, usual: string -> Option<Usual>, s: Settings, id: string)
    ensures id in Ids(first) ==> id in Ids(SecondPass(payments, first, usual, s))
    ensures id in Ids(SecondPass(payments, first, usual, s)) ==> NamedBy(id, first, payments)
  {
    if payments != [] {
      var init, d := payments[..|payments| - 1], payments[|payments| - 1];
      IdsNamed(init, first, usual, s, id);
      assert payments == init + [d];
      var before := SecondPass(init, first, usual, s);
      var line := FirstLarge(AccountLines(d), usual, s);
      hide FirstLarge, AccountLines, Ids;
      if line.Some? {
        IdsSnoc(before, LargeFinding(d, line.value));
      }
    }
  }

  lemma {:induction false} SecondPassIff(
    payments: seq<Doc>, first: seq<Finding>, usual: string -> Option<Usual>, s: Settings, f: Finding)
    requires UniqueIds(payments) && f !in first
    ensures f in SecondPass(payments, first, usual, s) <==>
      exists d :: d in payments && LargeFor(f, d, first, usual, s)
  {
    if payments != [] {
      var init, d := payments[..|payments| - 1], payments[|payments| - 1];
      SecondPassIff(init, first, usual, s, f);
      assert payments == init + [d];
      IdsNamed(init, first, usual, s, d.id);
      NotNamedBefore(payments, first);
      hide FirstLarge, AccountLines, Ids, NamedBy, UniqueIds;
      assert f in SecondPass(payments, first, usual, s) <==>
        f in SecondPass(init, first, usual, s) || LargeFor(f, d, first, usual, s);
      assert forall e :: e in payments <==> e in init || e == d;
    }
  }

  lemma NotNamedBefore(payments: seq<Doc>, first: seq<Finding>)
    requires UniqueIds(payments) && payments != []
    ensures var init, d := payments[..|payments| - 1], payments[|payments| - 1];
      NamedBy(d.id, first, init) <==> d.id in Ids(first)
  {
    var init, d := payments[..|payments| - 1], payments[|payments| - 1];
    forall e | e in init
      ensures e.id != d.id
    {
      var i :| 0 <= i < |init| && init[i] == e;
      assert payments[i] == e;
    }
  }

  lemma {:induction false} PaymentsUnique(txs: seq<Doc>)
    requires UniqueIds(txs)
    ensures UniqueIds(Payments(txs))
  {
    if txs != [] {
      var init, d := txs[..|txs| - 1], txs[|txs| - 1];
      PaymentsUnique(init);
      forall i | 0 <= i < |Payments(init)|
        ensures Payments(init)[i].id != d.id
      {
        assert Payments(init)[i] in Payments(init);
        var j :| 0 <= j < |init| && init[j] == Payments(init)[i];
        assert txs[j].id != txs[|txs| - 1].id;
      }
    }
  }

  /** Nothing in what the payment looks like calls for a finding. */
  ghost predicate LooksUsual(txs: seq<Doc>, d: Doc, unclear: Doc -> bool, s: Settings) {
    forall r :: !CallsFor(d, |PaymentsTo(txs, d)|, unclear(d), s, r)
  }

  lemma NotFlaggedFirst(txs: seq<Doc>, unclear: Doc -> bool, s: Settings, d: Doc)
    requires UniqueIds(txs) && d in txs && IsPayment(d)
    ensures var payments := Payments(txs);
      d.id !in Ids(FirstPass(payments, payments, unclear, s)) <==> LooksUsual(txs, d, unclear, s)
  {
    var payments := Payments(txs);
    var first := FirstPass(payments, payments, unclear, s);
    CountOfIs(txs, d);
    var reason := JudgePayment(d, CountOf(payments, d), unclear, s);
    forall r
      ensures reason == Some(r) <==> CallsFor(d, |PaymentsTo(txs, d)|, unclear(d), s, r)
    {
      JudgeIs(d, CountOf(payments, d), unclear, s, r);
    }
    InPayments(txs, d);
    hide JudgePayment, CountOf, Payments, CallsFor, PaymentsTo;
    if reason.Some? {
      var f := Finding(d.id, reason.value, Abs(d.amount), d.accountCode);
      FirstPassIff(payments, payments, unclear, s, f);
      assert FirstFor(f, payments, d, unclear, s);
    }
    if i :| 0 <= i < |first| && first[i].docId == d.id {
      FirstPassIff(payments, payments, unclear, s, first[i]);
      var e :| e in payments && FirstFor(first[i], payments, e, unclear, s);
      PaymentsUnique(txs);
    }
  }

  lemma {:induction false} FirstPassHasReasons(all: seq<Doc>, payments: seq<Doc>, unclear: Doc -> bool, s: Settings)
    ensures forall f :: f in FirstPass(all, payments, unclear, s) ==> f.reason != LargeVsAccount
  {
    if payments != [] {
      FirstPassHasReasons(all, payments[..|payments| - 1], unclear, s);
    }
  }

  /** The finding gives the amount and the account of line `l`. */
  predicate Quotes(f: Finding, l: Line) {
    l.amount.Some? && f.amount == Abs(l.amount.value) && f.account == l.accountCode
  }

  /** A payment is reported as large exactly when it looks usual and has a line far above its account; the finding
      gives the amount and the account of the first such line. */
  lemma LargeIff(txs: seq<Doc>, expense: set<string>, unclear: Doc -> bool, s: Settings, i: nat, f: Finding)
    requires UniqueIds(txs) && i < |txs| && f.reason == LargeVsAccount && f.docId == txs[i].id
    ensures f in AllUnusual(txs, expense, unclear, s) <==>
      && IsPayment(txs[i]) && LooksUsual(txs, txs[i], unclear, s)
      && exists m: nat :: FirstFarAbove(txs, expense, s, txs[i], m) && Quotes(f, LinesOf(txs[i])[m])
  {
    LargeFindingIff(txs, expense, unclear, s, i, f);
    hide AllUnusual, LooksUsual, PostedIn, IsPayment, LinesOf, Abs, UniqueIds;
    forall m: nat | FirstFarAbove(txs, expense, s, txs[i], m)
      ensures f == LargeFinding(txs[i], LinesOf(txs[i])[m]) <==> Quotes(f, LinesOf(txs[i])[m])
    {}
  }

  lemma LargeFindingIff(txs: seq<Doc>, expense: set<string>, unclear: Doc -> bool, s: Settings, i: nat, f: Finding)
    requires UniqueIds(txs) && i < |txs| && f.reason == LargeVsAccount && f.docId == txs[i].id
    ensures f in AllUnusual(txs, expense, unclear, s) <==>
      && IsPayment(txs[i]) && LooksUsual(txs, txs[i], unclear, s)
      && exists m: nat :: FirstFarAbove(txs, expense, s, txs[i], m)
           && f == LargeFinding(txs[i], LinesOf(txs[i])[m])
  {
    var d, payments := txs[i], Payments(txs);
    var first, usual := FirstPass(payments, payments, unclear, s), UsualIn(payments, expense, s);
    FirstPassHasReasons(payments, payments, unclear, s);
    PaymentsUnique(txs);
    SecondPassIff(payments, first, usual, s, f);
    OnlyThis(txs, i);
    InPayments(txs, d);
    if IsPayment(d) {
      NotFlaggedFirst(txs, unclear, s, d);
    }
    hide Payments, FirstPass, SecondPass, LooksUsual, FirstFarAbove, FirstLarge, AccountLines, Ids, UniqueIds;
    forall l
      ensures FirstLarge(AccountLines(d), usual, s) == Some(l) <==>
        exists m: nat :: FirstFarAbove(txs, expense, s, d, m) && LinesOf(d)[m] == l
    {
      FirstLargeOfPayment(txs, expense, s, d, l);
    }
    forall e | e in payments && LargeFor(f, e, first, usual, s)
      ensures e == d
    {
      InPayments(txs, e);
    }
  }

  lemma OnlyThis(txs: seq<Doc>, i: nat)
    requires UniqueIds(txs) && i < |txs|
    ensures txs[i] in txs && forall d :: d in txs && d.id == txs[i].id ==> d == txs[i]
  {
    forall d | d in txs && d.id == txs[i].id
      ensures d == txs[i]
    {
      var j :| 0 <= j < |txs| && txs[j] == d;
    }
  }
}
