/** Unusual payments (`find_unusual_payments`): unclear or one-off payments, then lines far above their
    account's average. An average is kept as an exact sum and count. */
module UnusualPayments {
  import opened Wrappers
  import opened Rounding
  import opened Documents
  import opened Grouping

  /** `multiple` is the account multiple; `unclear` is the verdict of the description rules. */
  datatype Settings = Settings(large: int, oneOffMaxCount: int, accountMinTxns: int, multiple: Ratio)

  datatype Reason = UnidentifiedSupplier | UnclearDescription | OneOffSupplier | LargeVsAccount

  datatype Finding = Finding(docId: string, reason: Reason, amount: int, account: string)

  datatype Usual = Usual(sum: int, count: int)

  function Payments(txs: seq<Doc>): (ps: seq<Doc>)
    ensures forall p :: p in ps ==> p in txs && (p.docType == AccPay || p.docType == Spend)
  {
    if txs == [] then []
    else
      Payments(txs[..|txs| - 1])
      + var d := txs[|txs| - 1]; if d.docType == AccPay || d.docType == Spend then [d] else []
  }

  /** The supplier key: contact id, else name. */
  function SupplierKey(d: Doc): Option<string> {
    Some(if d.contactId != "" then d.contactId else d.vendorName)
  }

  // ----- The usual level of an account ----------------------------------------------------------

  function PostedTo(expense: set<string>): Line -> Option<string> {
    (l: Line) => if l.accountCode != "" && l.amount.Some? && l.accountCode in expense then Some(l.accountCode) else None
  }

  function AllLines(payments: seq<Doc>): seq<Line> {
    if payments == [] then [] else AllLines(payments[..|payments| - 1]) + AccountLines(payments[|payments| - 1])
  }

  function SumAbs(lines: seq<Line>): (n: int)
    ensures n >= 0
  {
    if lines == [] then 0
    else Abs(if lines[0].amount.Some? then lines[0].amount.value else 0) + SumAbs(lines[1..])
  }

  /** The payment lines of an account. */
  function AccountPostings(payments: seq<Doc>, expense: set<string>, code: string): seq<Line> {
    Bucket(AllLines(payments), PostedTo(expense), code)
  }

  /** The average payment of an account, if it has enough lines and is positive. */
  function UsualOf(postings: seq<Line>, s: Settings): Option<Usual> {
    if postings != [] && |postings| >= s.accountMinTxns && SumAbs(postings) > 0
    then Some(Usual(SumAbs(postings), |postings|))
    else None
  }

  function UsualLevel(payments: seq<Doc>, expense: set<string>, code: string, s: Settings): Option<Usual> {
    UsualOf(AccountPostings(payments, expense, code), s)
  }

  function Level(usual: map<string, Usual>, code: string): Option<Usual> {
    if code in usual then Some(usual[code]) else None
  }

  method LearnUsual(payments: seq<Doc>, expense: set<string>, s: Settings) returns (usual: map<string, Usual>)
    ensures forall c :: Level(usual, c) == UsualLevel(payments, expense, c, s)
  {
    hide Bucket, PostedTo, AllLines, UsualOf;
    var order, byAccount := GroupBy(AllLines(payments), PostedTo(expense));
    usual := map[];
    for i := 0 to |order|
      invariant forall c :: Level(usual, c) == if c in order[..i] then UsualLevel(payments, expense, c, s) else None
    {
      assert order[..i + 1] == order[..i] + [order[i]];
      var level := UsualOf(byAccount[order[i]], s);
      if level.Some? {
        usual := usual[order[i] := level.value];
      }
    }
    assert order[..|order|] == order;
    forall c | c !in order
      ensures UsualLevel(payments, expense, c, s) == None
    {
      NoBucket(AllLines(payments), PostedTo(expense), c, byAccount);
      NoPostings(s);
    }
  }

  lemma NoPostings(s: Settings)
    ensures UsualOf([], s) == None
  {}

  // ----- First pass: what the payment itself looks like ------------------------------------------

  function CountOf(payments: seq<Doc>, d: Doc): int {
    |Bucket(payments, SupplierKey, SupplierKey(d).value)|
  }

  function JudgePayment(d: Doc, seen: int, unclear: Doc -> bool, s: Settings): Option<Reason> {
    if unclear(d) then Some(if seen == 1 then UnidentifiedSupplier else UnclearDescription)
    else if Abs(d.amount) >= s.large && seen <= s.oneOffMaxCount then Some(OneOffSupplier)
    else None
  }

  function FirstPass(all: seq<Doc>, payments: seq<Doc>, unclear: Doc -> bool, s: Settings): seq<Finding> {
    if payments == [] then []
    else
      var d := payments[|payments| - 1];
      var reason := JudgePayment(d, CountOf(all, d), unclear, s);
      FirstPass(all, payments[..|payments| - 1], unclear, s)
      + if reason.Some? then [Finding(d.id, reason.value, Abs(d.amount), d.accountCode)] else []
  }

  // ----- Second pass: lines far above their account ---------------------------------------------

  /** `line_amt >= avg * multiple`, without division. */
  predicate Large(l: Line, level: Usual, s: Settings) {
    l.amount.Some? && Abs(l.amount.value) * level.count * s.multiple.den >= level.sum * s.multiple.num
  }

  /** The first line of a payment that is large for its account. */
  function FirstLarge(lines: seq<Line>, usual: string -> Option<Usual>, s: Settings): Option<Line> {
    if lines == [] then None
    else if usual(lines[0].accountCode).Some? && Large(lines[0], usual(lines[0].accountCode).value, s) then
      Some(lines[0])
    else FirstLarge(lines[1..], usual, s)
  }

  function Ids(findings: seq<Finding>): set<string> {
    set i | 0 <= i < |findings| :: findings[i].docId
  }

  function LargeFinding(d: Doc, l: Line): Finding {
    Finding(d.id, LargeVsAccount, Abs(if l.amount.Some? then l.amount.value else 0), l.accountCode)
  }

  /** Payments already flagged are skipped. */
  function SecondPass(payments: seq<Doc>, first: seq<Finding>, usual: string -> Option<Usual>, s: Settings)
    : seq<Finding>
  {
    if payments == [] then first
    else
      var d := payments[|payments| - 1];
      var before := SecondPass(payments[..|payments| - 1], first, usual, s);
      var line := FirstLarge(AccountLines(d), usual, s);
      if d.id in Ids(before) || line.None? then before else before + [LargeFinding(d, line.value)]
  }

  function UsualIn(payments: seq<Doc>, expense: set<string>, s: Settings): string -> Option<Usual> {
    c => UsualLevel(payments, expense, c, s)
  }

  function AllUnusual(txs: seq<Doc>, expense: set<string>, unclear: Doc -> bool, s: Settings): seq<Finding> {
    var payments := Payments(txs);
    SecondPass(payments, FirstPass(payments, payments, unclear, s), UsualIn(payments, expense, s), s)
  }

  method FindUnusualPayments(txs: seq<Doc>, expense: set<string>, unclear: Doc -> bool, s: Settings)
    returns (findings: seq<Finding>)
    ensures findings == AllUnusual(txs, expense, unclear, s)
  {
    hide *;
    var payments := Payments(txs);
    var usual := LearnUsual(payments, expense, s);
    var first := RunFirstPass(payments, unclear, s);
    findings := RunSecondPass(payments, first, usual, expense, s);
    AllUnusualIs(txs, expense, unclear, s);
  }

  lemma AllUnusualIs(txs: seq<Doc>, expense: set<string>, unclear: Doc -> bool, s: Settings)
    ensures AllUnusual(txs, expense, unclear, s) ==
      SecondPass(
        Payments(txs), FirstPass(Payments(txs), Payments(txs), unclear, s), UsualIn(Payments(txs), expense, s), s)
  {}

  method RunSecondPass(
    payments: seq<Doc>, first: seq<Finding>, usual: map<string, Usual>, ghost expense: set<string>, s: Settings)
    returns (findings: seq<Finding>)
    requires forall c :: Level(usual, c) == UsualLevel(payments, expense, c, s)
    ensures findings == SecondPass(payments, first, UsualIn(payments, expense, s), s)
  {
    hide UsualLevel, Ids, FirstLarge, AccountLines, Abs;
    findings := first;
    var flagged := Ids(first);
    for i := 0 to |payments|
      invariant findings == SecondPass(payments[..i], first, UsualIn(payments, expense, s), s)
      invariant flagged == Ids(findings)
    {
      assert payments[..i + 1][..i] == payments[..i];
      var d := payments[i];
      if d.id !in flagged {
        var line := ScanLines(AccountLines(d), usual, s);
        SameLevels(AccountLines(d), usual, payments, expense, s);
        if line.Some? {
          IdsSnoc(findings, LargeFinding(d, line.value));
          findings := findings + [LargeFinding(d, line.value)];
          flagged := flagged + {d.id};
        }
      }
    }
    assert payments[..|payments|] == payments;
  }

  lemma IdsSnoc(findings: seq<Finding>, f: Finding)
    ensures Ids(findings + [f]) == Ids(findings) + {f.docId}
  {
    assert forall i :: 0 <= i < |findings| ==> (findings + [f])[i] == findings[i];
    assert (findings + [f])[|findings|] == f;
  }

  method RunFirstPass(payments: seq<Doc>, unclear: Doc -> bool, s: Settings) returns (findings: seq<Finding>)
    ensures findings == FirstPass(payments, payments, unclear, s)
  {
    hide Bucket, KeysInOrder;
    var _, bySupplier := GroupBy(payments, SupplierKey);
    findings := [];
    for i := 0 to |payments|
      invariant findings == FirstPass(payments, payments[..i], unclear, s)
    {
      assert payments[..i + 1][..i] == payments[..i];
      var d := payments[i];
      var reason := JudgePayment(d, |bySupplier[SupplierKey(d).value]|, unclear, s);
      if reason.Some? {
        findings := findings + [Finding(d.id, reason.value, Abs(d.amount), d.accountCode)];
      }
    }
    assert payments[..|payments|] == payments;
  }

  /** The line loop with its `break`. */
  method ScanLines(lines: seq<Line>, usual: map<string, Usual>, s: Settings) returns (found: Option<Line>)
    ensures found == FirstLarge(lines, c => Level(usual, c), s)
  {
    ghost var level := c => Level(usual, c);
    for k := 0 to |lines|
      invariant FirstLarge(lines, level, s) == FirstLarge(lines[k..], level, s)
    {
      assert lines[k..][1..] == lines[k + 1..];
      var code := lines[k].accountCode;
      if code in usual && Large(lines[k], usual[code], s) {
        return Some(lines[k]);
      }
    }
    found := None;
  }

  lemma {:induction false} SameLevels(lines: seq<Line>, usual: map<string, Usual>, payments: seq<Doc>,
        expense: set<string>, s: Settings)
    requires forall c :: Level(usual, c) == UsualLevel(payments, expense, c, s)
    ensures FirstLarge(lines, c => Level(usual, c), s) == FirstLarge(lines, UsualIn(payments, expense, s), s)
  {
    hide UsualLevel, Large;
    if lines != [] {
      SameLevels(lines[1..], usual, payments, expense, s);
    }
  }

  // ----- A Markov-style bound ------------------------------------------------------------------

  /** How many findings say "large" for this account. */
  function CountLarge(findings: seq<Finding>, code: string): (n: int)
    ensures n >= 0
  {
    if findings == [] then 0
    else
      var f := findings[|findings| - 1];
      CountLarge(findings[..|findings| - 1], code) + if f.reason == LargeVsAccount && f.account == code then 1 else 0
  }

  lemma {:induction false} FirstPassHasNoLarge(
    all: seq<Doc>, payments: seq<Doc>, unclear: Doc -> bool, s: Settings, code: string)
    ensures CountLarge(FirstPass(all, payments, unclear, s), code) == 0
  {
    if payments != [] {
      FirstPassHasNoLarge(all, payments[..|payments| - 1], unclear, s, code);
      var before := FirstPass(all, payments[..|payments| - 1], unclear, s);
      var d := payments[|payments| - 1];
      var reason := JudgePayment(d, CountOf(all, d), unclear, s);
      if reason.Some? {
        CountLargeSnoc(before, Finding(d.id, reason.value, Abs(d.amount), d.accountCode), code);
      } else {
        assert before + [] == before;
      }
    }
  }

  lemma CountLargeSnoc(findings: seq<Finding>, f: Finding, code: string)
    ensures CountLarge(findings + [f], code) ==
      CountLarge(findings, code) + if f.reason == LargeVsAccount && f.account == code then 1 else 0
  {
    assert (findings + [f])[..|findings|] == findings;
  }

  lemma {:induction false} SumAppend(xs: seq<Line>, ys: seq<Line>)
    ensures SumAbs(xs + ys) == SumAbs(xs) + SumAbs(ys)
  {
    if xs == [] {
      assert xs + ys == ys;
    } else {
      assert (xs + ys)[1..] == xs[1..] + ys;
      SumAppend(xs[1..], ys);
    }
  }

  lemma {:induction false} SumAtLeast(lines: seq<Line>, l: Line)
    requires l in lines && l.amount.Some?
    ensures SumAbs(lines) >= Abs(l.amount.value)
  {
    if l != lines[0] {
      SumAtLeast(lines[1..], l);
    }
  }

  lemma {:induction false} FirstLargeIsLine(lines: seq<Line>, usual: string -> Option<Usual>, s: Settings)
    requires FirstLarge(lines, usual, s).Some?
    ensures var l := FirstLarge(lines, usual, s).value;
      l in lines && usual(l.accountCode).Some? && Large(l, usual(l.accountCode).value, s)
  {
    if !(usual(lines[0].accountCode).Some? && Large(lines[0], usual(lines[0].accountCode).value, s)) {
      FirstLargeIsLine(lines[1..], usual, s);
    }
  }

  /** `k` findings at `cost` each fit into `total` at `unit` each. */
  predicate Affords(k: int, cost: int, total: int, unit: int) {
    k * cost <= total * unit
  }

  function CostOf(level: Usual, s: Settings): int {
    level.sum * s.multiple.num
  }

  function UnitOf(level: Usual, s: Settings): int {
    level.count * s.multiple.den
  }

  /** One payment's large line is paid for by the payment's own postings to the account. */
  lemma PaymentUses(
    d: Doc, usual: string -> Option<Usual>, s: Settings, expense: set<string>, code: string, level: Usual)
    requires usual(code) == Some(level) && code != "" && code in expense && level.count >= 0
    ensures var line := FirstLarge(AccountLines(d), usual, s);
      line.Some? && line.value.accountCode == code ==>
        Affords(1, CostOf(level, s), SumAbs(Bucket(AccountLines(d), PostedTo(expense), code)), UnitOf(level, s))
  {
    var line := FirstLarge(AccountLines(d), usual, s);
    if line.Some? && line.value.accountCode == code {
      FirstLargeIsLine(AccountLines(d), usual, s);
      LineIsPosting(AccountLines(d), line.value, expense, code);
      var lines := Bucket(AccountLines(d), PostedTo(expense), code);
      SumAtLeast(lines, line.value);
      hide Bucket, FirstLarge, AccountLines, PostedTo, SumAbs, Abs;
      Scale(Abs(line.value.amount.value), SumAbs(lines), level.count, s.multiple.den);
    }
  }

  lemma Scale(a: int, b: int, count: int, den: int)
    requires a <= b && count >= 0 && den >= 0
    ensures a * count * den <= b * (count * den)
  {
    MulLe(count * den, a, b);
    assert a * count * den == count * den * a;
  }

  /** What the findings so far have used up of the account's total. */
  lemma {:induction false} LargeUsesUpTotal(payments: seq<Doc>, first: seq<Finding>, usual: string -> Option<Usual>,
        s: Settings, expense: set<string>, code: string, level: Usual)
    requires usual(code) == Some(level) && code != "" && code in expense
    requires CountLarge(first, code) == 0 && level.count >= 0
    ensures Affords(CountLarge(SecondPass(payments, first, usual, s), code), CostOf(level, s),
                    SumAbs(AccountPostings(payments, expense, code)), UnitOf(level, s))
  {
    hide Affords, CostOf, UnitOf, CountLarge, SecondPass, AccountPostings, SumAbs;
    if payments == [] {
      NothingUsed(first, usual, s, expense, code, level);
    } else {
      LargeUsesUpTotal(payments[..|payments| - 1], first, usual, s, expense, code, level);
      LargeUsesUpMore(payments, first, usual, s, expense, code, level);
    }
  }

  lemma LargeUsesUpMore(payments: seq<Doc>, first: seq<Finding>, usual: string -> Option<Usual>,
        s: Settings, expense: set<string>, code: string, level: Usual)
    requires usual(code) == Some(level) && code != "" && code in expense && level.count >= 0 && payments != []
    requires Affords(CountLarge(SecondPass(payments[..|payments| - 1], first, usual, s), code), CostOf(level, s),
                     SumAbs(AccountPostings(payments[..|payments| - 1], expense, code)), UnitOf(level, s))
    ensures Affords(CountLarge(SecondPass(payments, first, usual, s), code), CostOf(level, s),
                    SumAbs(AccountPostings(payments, expense, code)), UnitOf(level, s))
  {
    hide *;
    var init, d := payments[..|payments| - 1], payments[|payments| - 1];
    PostingsSnoc(payments, expense, code);
    PaymentUses(d, usual, s, expense, code, level);
    SecondPassStep(payments, first, usual, s, code);
    var k := CountLarge(SecondPass(init, first, usual, s), code);
    var more := SumAbs(Bucket(AccountLines(d), PostedTo(expense), code));
    NothingCostsNothing(more, level, s);
    AddUp(k, CountLarge(SecondPass(payments, first, usual, s), code), CostOf(level, s),
          SumAbs(AccountPostings(init, expense, code)), more, UnitOf(level, s));
  }

  lemma NothingUsed(
    first: seq<Finding>, usual: string -> Option<Usual>, s: Settings, expense: set<string>, code: string, level: Usual)
    requires CountLarge(first, code) == 0
    ensures Affords(CountLarge(SecondPass([], first, usual, s), code), CostOf(level, s),
                    SumAbs(AccountPostings([], expense, code)), UnitOf(level, s))
  {
    assert AccountPostings([], expense, code) == [];
    assert SumAbs([]) == 0;
  }

  lemma NothingCostsNothing(more: int, level: Usual, s: Settings)
    requires more >= 0 && level.count >= 0
    ensures Affords(0, CostOf(level, s), more, UnitOf(level, s))
  {
    NonNegative(more, level.count, s.multiple.den);
  }

  lemma NonNegative(a: int, b: int, c: int)
    requires a >= 0 && b >= 0 && c >= 0
    ensures 0 <= a * (b * c)
  {
    MulLe(b, 0, c);
    MulLe(a, 0, b * c);
  }

  lemma PostingsSnoc(payments: seq<Doc>, expense: set<string>, code: string)
    requires payments != []
    ensures SumAbs(AccountPostings(payments, expense, code)) ==
      SumAbs(AccountPostings(payments[..|payments| - 1], expense, code))
      + SumAbs(Bucket(AccountLines(payments[|payments| - 1]), PostedTo(expense), code))
  {
    var init, d := payments[..|payments| - 1], payments[|payments| - 1];
    BucketAppend(AllLines(init), AccountLines(d), PostedTo(expense), code);
    SumAppend(AccountPostings(init, expense, code), Bucket(AccountLines(d), PostedTo(expense), code));
  }

  /** One payment adds at most one large finding, on the account of its first large line. */
  lemma SecondPassStep(
    payments: seq<Doc>, first: seq<Finding>, usual: string -> Option<Usual>, s: Settings, code: string)
    requires payments != []
    ensures var before := SecondPass(payments[..|payments| - 1], first, usual, s);
      var line := FirstLarge(AccountLines(payments[|payments| - 1]), usual, s);
      var k := CountLarge(SecondPass(payments, first, usual, s), code);
      k == CountLarge(before, code)
      || (k == CountLarge(before, code) + 1 && line.Some? && line.value.accountCode == code)
  {
    var d := payments[|payments| - 1];
    var before := SecondPass(payments[..|payments| - 1], first, usual, s);
    var line := FirstLarge(AccountLines(d), usual, s);
    hide FirstLarge, AccountLines, Abs;
    if d.id !in Ids(before) && line.Some? {
      CountLargeSnoc(before, LargeFinding(d, line.value), code);
    }
  }

  lemma AddUp(k: int, k': int, cost: int, total: int, more: int, unit: int)
    requires Affords(k, cost, total, unit) && Affords(0, cost, more, unit)
    requires k' == k || (k' == k + 1 && Affords(1, cost, more, unit))
    ensures Affords(k', cost, total + more, unit)
  {}

  lemma LineIsPosting(lines: seq<Line>, l: Line, expense: set<string>, code: string)
    requires l in lines && l.accountCode == code && l.amount.Some? && code != "" && code in expense
    ensures l in Bucket(lines, PostedTo(expense), code)
  {
    var i :| 0 <= i < |lines| && lines[i] == l;
    BucketMember(lines, PostedTo(expense), code, i);
  }

  lemma Cancel(k: int, num: int, n: int, den: int, sum: int)
    requires sum > 0 && Affords(k, sum * num, sum, n * den)
    ensures k * num <= n * den
  {
    assert sum * (k * num) <= sum * (n * den);
  }

  /** At most `n / multiple` transactions can be flagged as large for an account with `n` payment
      lines, whatever the amounts. */
  lemma LargeFindingsBounded(txs: seq<Doc>, expense: set<string>, unclear: Doc -> bool, s: Settings, code: string)
    requires s.multiple.num >= 0 && code in expense && code != ""
    ensures CountLarge(AllUnusual(txs, expense, unclear, s), code) * s.multiple.num
      <= |AccountPostings(Payments(txs), expense, code)| * s.multiple.den
  {
    var payments := Payments(txs);
    var first := FirstPass(payments, payments, unclear, s);
    FirstPassHasNoLarge(payments, payments, unclear, s, code);
    BoundFrom(payments, first, expense, s, code);
  }

  lemma BoundFrom(payments: seq<Doc>, first: seq<Finding>, expense: set<string>, s: Settings, code: string)
    requires s.multiple.num >= 0 && code in expense && code != "" && CountLarge(first, code) == 0
    ensures CountLarge(SecondPass(payments, first, UsualIn(payments, expense, s), s), code) * s.multiple.num
      <= |AccountPostings(payments, expense, code)| * s.multiple.den
  {
    var usual := UsualIn(payments, expense, s);
    var postings := AccountPostings(payments, expense, code);
    hide SecondPass, CountLarge, AccountPostings, SumAbs;
    var level := usual(code);
    if level.Some? {
      assert level.value == Usual(SumAbs(postings), |postings|) && SumAbs(postings) > 0;
      LargeUsesUpTotal(payments, first, usual, s, expense, code, level.value);
      var large := CountLarge(SecondPass(payments, first, usual, s), code);
      Cancel(large, s.multiple.num, |postings|, s.multiple.den, SumAbs(postings));
    } else {
      NoLevelNoLarge(payments, first, usual, s, code);
      MulLe(s.multiple.den, 0, |postings|);
    }
  }

  lemma {:induction false} NoLevelNoLarge(payments: seq<Doc>, first: seq<Finding>, usual: string -> Option<Usual>,
        s: Settings, code: string)
    requires usual(code).None? && CountLarge(first, code) == 0
    ensures CountLarge(SecondPass(payments, first, usual, s), code) == 0
  {
    if payments != [] {
      var init, d := payments[..|payments| - 1], payments[|payments| - 1];
      NoLevelNoLarge(init, first, usual, s, code);
      var before := SecondPass(init, first, usual, s);
      var line := FirstLarge(AccountLines(d), usual, s);
      if line.Some? {
        FirstLargeIsLine(AccountLines(d), usual, s);
        CountLargeSnoc(before, LargeFinding(d, line.value), code);
      }
    }
  }
}
