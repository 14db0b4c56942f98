/** Open documents settled directly through the bank (`_find_direct_settlement_mismatches`): a join of
    documents and bank items through an index by contact. */
module BankJoin {
  import opened Wrappers
  import opened Documents
  import opened Grouping

  /** The check runs twice: for bills against SPEND items and for invoices against RECEIVE items. */
  datatype Scope = Scope(docType: DocType, bankType: DocType, window: int)

  const AMOUNT_TOLERANCE := 1

  datatype Settlement = Settlement(docId: string, bankId: string, due: int, bankAmount: int, daysApart: int)

  /** An open document with something left to pay and a known contact. */
  predicate Candidate(d: Doc, scope: Scope) {
    && d.docType == scope.docType
    && (d.status == NoStatus || d.status == Authorised || d.status == Submitted)
    && Outstanding(d) > 0
    && d.contactId != ""
  }

  predicate NearInTimeAndAmount(d: Doc, bank: Doc, scope: Scope) {
    && 0 <= bank.day - d.day <= scope.window
    && -AMOUNT_TOLERANCE <= Outstanding(d) - bank.amount <= AMOUNT_TOLERANCE
  }

  predicate Settles(bank: Doc, d: Doc, scope: Scope) {
    bank.docType == scope.bankType && bank.contactId == d.contactId && NearInTimeAndAmount(d, bank, scope)
  }

  function Report(d: Doc, bank: Doc): Settlement {
    Settlement(d.id, bank.id, Outstanding(d), bank.amount, bank.day - d.day)
  }

  // ----- The simple form: scan the whole bank feed for every document -----------------------------

  /** The first item of the feed that settles the document. */
  function FirstSettling(feed: seq<Doc>, d: Doc, scope: Scope): Option<Doc> {
    if feed == [] then None
    else if Settles(feed[0], d, scope) then Some(feed[0])
    else FirstSettling(feed[1..], d, scope)
  }

  function ReportsFor(d: Doc, feed: seq<Doc>, scope: Scope): seq<Settlement> {
    if Candidate(d, scope) && FirstSettling(feed, d, scope).Some?
    then [Report(d, FirstSettling(feed, d, scope).value)]
    else []
  }

  function NestedScan(docs: seq<Doc>, feed: seq<Doc>, scope: Scope): seq<Settlement> {
    if docs == [] then []
    else NestedScan(docs[..|docs| - 1], feed, scope) + ReportsFor(docs[|docs| - 1], feed, scope)
  }

  /** The scan finds the earliest settling item of the feed, and nothing exactly when there is none. */
  lemma {:induction false} FirstSettlingIsFirst(feed: seq<Doc>, d: Doc, scope: Scope)
    ensures FirstSettling(feed, d, scope).None? <==> forall i :: 0 <= i < |feed| ==> !Settles(feed[i], d, scope)
    ensures FirstSettling(feed, d, scope).Some? ==>
      exists i :: 0 <= i < |feed| && feed[i] == FirstSettling(feed, d, scope).value && Settles(feed[i], d, scope)
        && forall j :: 0 <= j < i ==> !Settles(feed[j], d, scope)
  {
    if feed != [] && !Settles(feed[0], d, scope) {
      FirstSettlingIsFirst(feed[1..], d, scope);
      if FirstSettling(feed[1..], d, scope).Some? {
        var i :| 0 <= i < |feed[1..]| && feed[1..][i] == FirstSettling(feed[1..], d, scope).value
          && Settles(feed[1..][i], d, scope) && forall j :: 0 <= j < i ==> !Settles(feed[1..][j], d, scope);
        assert feed[i + 1] == feed[1..][i];
        forall j | 0 <= j < i + 1
          ensures !Settles(feed[j], d, scope)
        {
          if j > 0 {
            assert feed[j] == feed[1..][j - 1];
          }
        }
      } else {
        forall i | 0 <= i < |feed|
          ensures !Settles(feed[i], d, scope)
        {
          if i > 0 {
            assert feed[i] == feed[1..][i - 1];
          }
        }
      }
    }
  }

  lemma {:induction false} ReportOfScan(docs: seq<Doc>, feed: seq<Doc>, scope: Scope, r: Settlement)
    ensures r in NestedScan(docs, feed, scope) <==>
      exists i :: 0 <= i < |docs| && r in ReportsFor(docs[i], feed, scope)
  {
    if docs != [] {
      var init := docs[..|docs| - 1];
      ReportOfScan(init, feed, scope, r);
      if r in NestedScan(init, feed, scope) {
        var i :| 0 <= i < |init| && r in ReportsFor(init[i], feed, scope);
        assert docs[i] == init[i];
      }
      if i :| 0 <= i < |docs| && r in ReportsFor(docs[i], feed, scope) {
        if i < |init| {
          assert init[i] == docs[i];
        }
      }
    }
  }

  /** A document is flagged exactly when it is an open one with a balance and a contact, and some bank
      item of the right type and contact falls 0 to `window` days later within a penny of the balance. */
  lemma FlaggedIff(docs: seq<Doc>, feed: seq<Doc>, scope: Scope, i: nat)
    requires i < |docs| && UniqueIds(docs)
    ensures (exists r :: r in NestedScan(docs, feed, scope) && r.docId == docs[i].id) <==>
      Candidate(docs[i], scope) && exists k :: 0 <= k < |feed| && Settles(feed[k], docs[i], scope)
  {
    hide Candidate, Settles, NestedScan, FirstSettling;
    FirstSettlingIsFirst(feed, docs[i], scope);
    if r :| r in NestedScan(docs, feed, scope) && r.docId == docs[i].id {
      ReportOfScan(docs, feed, scope, r);
      var j :| 0 <= j < |docs| && r in ReportsFor(docs[j], feed, scope);
      assert docs[j].id == docs[i].id;
      assert j == i;
    }
    if Candidate(docs[i], scope) && FirstSettling(feed, docs[i], scope).Some? {
      var r := Report(docs[i], FirstSettling(feed, docs[i], scope).value);
      assert r in ReportsFor(docs[i], feed, scope);
      ReportOfScan(docs, feed, scope, r);
    }
  }

  /** What is left to pay: the balance the ledger gives, else the amount less what was paid or allocated. */
  function LeftToPay(d: Doc): int {
    match d.amountDue
    case Some(due) => due
    case None =>
      var paid := if d.amountPaid.None? then 0 else d.amountPaid.value;
      var credited := if d.allocatedAmount.None? then 0 else d.allocatedAmount.value;
      d.amount - paid - credited
  }

  /** A submitted, authorised or unmarked document of the type looked at, with a contact and something to pay. */
  predicate Open(d: Doc, scope: Scope) {
    && d.docType == scope.docType && d.contactId != "" && LeftToPay(d) > 0
    && (d.status.NoStatus? || d.status.Authorised? || d.status.Submitted?)
  }

  /** A bank item of the right type and contact, no earlier than the document, at most the window later and
      within a penny of what is left to pay. */
  predicate PaidBy(d: Doc, bank: Doc, scope: Scope) {
    && bank.docType == scope.bankType && bank.contactId == d.contactId
    && d.day <= bank.day <= d.day + scope.window
    && Abs(LeftToPay(d) - bank.amount) <= 1
  }

  /** A document is flagged exactly when it is open and some bank item pays it, told from the fields alone. */
  lemma FlaggedExactly(docs: seq<Doc>, feed: seq<Doc>, scope: Scope, i: nat)
    requires i < |docs| && UniqueIds(docs)
    ensures (exists r :: r in NestedScan(docs, feed, scope) && r.docId == docs[i].id) <==>
      Open(docs[i], scope) && exists k :: 0 <= k < |feed| && PaidBy(docs[i], feed[k], scope)
  {
    FlaggedIff(docs, feed, scope, i);
    hide NestedScan;
    assert Candidate(docs[i], scope) <==> Open(docs[i], scope);
    assert forall k :: 0 <= k < |feed| ==> (Settles(feed[k], docs[i], scope) <==> PaidBy(docs[i], feed[k], scope));
  }

  /** Every flag names a document and the first bank item that pays it, with their amounts and the days between
      them. */
  lemma SettlementSays(docs: seq<Doc>, feed: seq<Doc>, scope: Scope, r: Settlement)
    requires r in NestedScan(docs, feed, scope)
    ensures exists i, k :: 0 <= i < |docs| && 0 <= k < |feed| && Settled(docs[i], feed, k, scope, r)
  {
    ReportOfScan(docs, feed, scope, r);
    var i :| 0 <= i < |docs| && r in ReportsFor(docs[i], feed, scope);
    hide NestedScan, Candidate, FirstSettling, Settles;
    FirstSettlingIsFirst(feed, docs[i], scope);
    var k :| 0 <= k < |feed| && feed[k] == FirstSettling(feed, docs[i], scope).value
             && Settles(feed[k], docs[i], scope) && forall j :: 0 <= j < k ==> !Settles(feed[j], docs[i], scope);
    SettledBy(docs[i], feed, k, scope);
  }

  /** The flag of `d` paid by item `k`. */
  predicate Settled(d: Doc, feed: seq<Doc>, k: nat, scope: Scope, r: Settlement)
    requires k < |feed|
  {
    && Open(d, scope) && PaidBy(d, feed[k], scope) && (forall j :: 0 <= j < k ==> !PaidBy(d, feed[j], scope))
    && r == Settlement(d.id, feed[k].id, LeftToPay(d), feed[k].amount, feed[k].day - d.day)
  }

  lemma SettledBy(d: Doc, feed: seq<Doc>, k: nat, scope: Scope)
    requires k < |feed| && Candidate(d, scope) && Settles(feed[k], d, scope)
    requires forall j :: 0 <= j < k ==> !Settles(feed[j], d, scope)
    ensures Settled(d, feed, k, scope, Report(d, feed[k]))
  {
    assert forall j :: 0 <= j < k ==> (Settles(feed[j], d, scope) <==> PaidBy(d, feed[j], scope));
  }

  /** No document is flagged twice. */
  lemma {:induction false} FlaggedOnce(docs: seq<Doc>, feed: seq<Doc>, scope: Scope)
    requires UniqueIds(docs)
    ensures forall a, b :: 0 <= a < b < |NestedScan(docs, feed, scope)| ==>
      NestedScan(docs, feed, scope)[a].docId != NestedScan(docs, feed, scope)[b].docId
  {
    if docs != [] {
      var init, last := docs[..|docs| - 1], docs[|docs| - 1];
      FlaggedOnce(init, feed, scope);
      var before := NestedScan(init, feed, scope);
      forall a | 0 <= a < |before|
        ensures before[a].docId != last.id
      {
        ReportOfScan(init, feed, scope, before[a]);
        var i :| 0 <= i < |init| && before[a] in ReportsFor(init[i], feed, scope);
        assert docs[i].id != docs[|docs| - 1].id;
      }
    }
  }

  // ----- The indexed join ----------------------------------------------------------------------

  /** The index key: only bank items of the right type with a contact are indexed. */
  function BankKey(scope: Scope): Doc -> Option<string> {
    (b: Doc) => if b.docType == scope.bankType && b.contactId != "" then Some(b.contactId) else None
  }

  /** The first near item of one contact's list. */
  function FirstNear(items: seq<Doc>, d: Doc, scope: Scope): Option<Doc> {
    if items == [] then None
    else if NearInTimeAndAmount(d, items[0], scope) then Some(items[0])
    else FirstNear(items[1..], d, scope)
  }

  /** Looking only at the document's contact loses nothing and keeps the feed order. */
  lemma {:induction false} IndexLosesNothing(feed: seq<Doc>, d: Doc, scope: Scope)
    requires d.contactId != ""
    ensures FirstNear(Bucket(feed, BankKey(scope), d.contactId), d, scope) == FirstSettling(feed, d, scope)
  {
    if feed != [] {
      IndexLosesNothing(feed[1..], d, scope);
      var rest := Bucket(feed[1..], BankKey(scope), d.contactId);
      assert ([feed[0]] + rest)[1..] == rest;
    }
  }

  lemma NothingIndexed(feed: seq<Doc>, d: Doc, scope: Scope, index: map<string, seq<Doc>>)
    requires d.contactId != "" && d.contactId !in index
    requires forall i :: 0 <= i < |feed| && BankKey(scope)(feed[i]).Some? ==> BankKey(scope)(feed[i]).value in index
    ensures FirstSettling(feed, d, scope) == None
  {
    NoBucket(feed, BankKey(scope), d.contactId, index);
    IndexLosesNothing(feed, d, scope);
  }

  /** The join gives exactly the nested scan's flags, in the same order. */
  method FindDirectSettlements(docs: seq<Doc>, feed: seq<Doc>, scope: Scope) returns (flagged: seq<Settlement>)
    ensures flagged == NestedScan(docs, feed, scope)
  {
    hide Candidate, FirstSettling, Bucket, BankKey;
    var _, index := GroupBy(feed, BankKey(scope));
    flagged := [];
    for i := 0 to |docs|
      invariant flagged == NestedScan(docs[..i], feed, scope)
    {
      var d := docs[i];
      assert docs[..i + 1][..i] == docs[..i];
      if Candidate(d, scope) {
        HasContact(d, scope);
        if d.contactId in index {
          IndexLosesNothing(feed, d, scope);
          var first := ScanContact(index[d.contactId], d, scope);
          if first.Some? {
            flagged := flagged + [Report(d, first.value)];
          }
        } else {
          NothingIndexed(feed, d, scope, index);
        }
      }
    }
    assert docs[..|docs|] == docs;
  }

  lemma HasContact(d: Doc, scope: Scope)
    requires Candidate(d, scope)
    ensures d.contactId != ""
  {}

  /** The inner loop with its `break` on the first match. */
  method ScanContact(items: seq<Doc>, d: Doc, scope: Scope) returns (first: Option<Doc>)
    ensures first == FirstNear(items, d, scope)
  {
    for k := 0 to |items|
      invariant FirstNear(items, d, scope) == FirstNear(items[k..], d, scope)
    {
      assert items[k..][1..] == items[k + 1..];
      if NearInTimeAndAmount(d, items[k], scope) {
        return Some(items[k]);
      }
    }
    first := None;
  }
}
