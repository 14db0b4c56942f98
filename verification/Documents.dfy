/** The ledger documents the checks read. Text fields hold the text as the checks compare it: stripped,
    and with contact names and descriptions lower-cased; a missing text is the empty string. Money is in
    whole pence and `day` is the ordinal of the document's date. */
module Documents {
  import opened Wrappers

  datatype DocType = AccRec | AccPay | AccRecCredit | AccPayCredit | Spend | Receive | OtherType(name: string) | NoType

  datatype Status = NoStatus | Draft | Submitted | Authorised | Paid | OtherStatus(name: string)

  datatype Line = Line(accountCode: string, amount: Option<int>)

  datatype Doc = Doc(
    id: string,
    docType: DocType,
    day: int,
    amount: int,
    contactId: string,
    vendorName: string,
    reference: string,
    invoiceNumber: string,
    description: string,
    status: Status,
    amountDue: Option<int>,
    amountPaid: Option<int>,
    allocatedAmount: Option<int>,
    postedDay: Option<int>,
    accountCode: string,
    taxCode: string,
    lines: seq<Line>)

  predicate IsCredit(t: DocType) { t == AccRecCredit || t == AccPayCredit }

  predicate IsSales(t: DocType) { t == AccRec || t == AccRecCredit }

  predicate IsPurchase(t: DocType) { t == AccPay || t == AccPayCredit }

  /** `_contact_key` without an alias: the real contact id, else the name. */
  function ContactKey(d: Doc): string {
    if d.contactId != "" then d.contactId else "name:" + d.vendorName
  }

  /** `_is_paid` */
  predicate IsPaid(d: Doc) {
    d.status == Paid || (d.amountDue == Some(0) && d.amount > 0)
  }

  function OrZero(x: Option<int>): int {
    if x.Some? then x.value else 0
  }

  /** `_outstanding_amount` */
  function Outstanding(d: Doc): int {
    if d.amountDue.Some? then d.amountDue.value
    else d.amount - (OrZero(d.amountPaid) + OrZero(d.allocatedAmount))
  }

  /** `_account_lines`: the document's lines, else its flat account and amount. */
  function AccountLines(d: Doc): seq<Line> {
    if d.lines != [] then d.lines else [Line(d.accountCode, Some(d.amount))]
  }

  predicate UniqueIds(docs: seq<Doc>) {
    forall i, j :: 0 <= i < j < |docs| ==> docs[i].id != docs[j].id
  }
}

/** `statistics.median` over integers, kept exact by doubling. */
module Median {
  function Insert(x: int, xs: seq<int>): (r: seq<int>)
    ensures multiset(r) == multiset(xs) + multiset{x}
    ensures |r| == |xs| + 1
  {
    if xs == [] || x <= xs[0] then
      [x] + xs
    else
      assert xs == [xs[0]] + xs[1..];
      [xs[0]] + Insert(x, xs[1..])
  }

  function Sort(xs: seq<int>): (r: seq<int>)
    ensures multiset(r) == multiset(xs)
    ensures |r| == |xs|
  {
    if xs == [] then
      []
    else
      assert xs == [xs[0]] + xs[1..];
      Insert(xs[0], Sort(xs[1..]))
  }

  predicate Ascending(xs: seq<int>) {
    forall i, j :: 0 <= i < j < |xs| ==> xs[i] <= xs[j]
  }

  lemma InsertMembers(x: int, xs: seq<int>, z: int)
    ensures z in Insert(x, xs) <==> z == x || z in xs
  {
    hide Insert;
    assert z in Insert(x, xs) <==> z in multiset(Insert(x, xs));
  }

  lemma AscendingCons(x: int, xs: seq<int>)
    requires Ascending(xs) && forall z :: z in xs ==> x <= z
    ensures Ascending([x] + xs)
  {
    forall i, j | 0 <= i < j < |[x] + xs|
      ensures ([x] + xs)[i] <= ([x] + xs)[j]
    {
      assert xs[j - 1] in xs;
    }
  }

  lemma AscendingHead(xs: seq<int>)
    requires Ascending(xs) && xs != []
    ensures Ascending(xs[1..]) && forall z :: z in xs[1..] ==> xs[0] <= z
  {}

  lemma {:induction false} InsertAscending(x: int, xs: seq<int>)
    requires Ascending(xs)
    ensures Ascending(Insert(x, xs))
  {
    if xs == [] {
    } else {
      AscendingHead(xs);
      if x <= xs[0] {
        AscendingCons(x, xs);
      } else {
        InsertAscending(x, xs[1..]);
        forall z | z in Insert(x, xs[1..])
          ensures xs[0] <= z
        {
          InsertMembers(x, xs[1..], z);
        }
        AscendingCons(xs[0], Insert(x, xs[1..]));
      }
    }
  }

  lemma {:induction false} SortAscending(xs: seq<int>)
    ensures Ascending(Sort(xs))
  {
    if xs != [] {
      SortAscending(xs[1..]);
      InsertAscending(xs[0], Sort(xs[1..]));
    }
  }

  /** Twice the median: the middle element doubled, or the sum of the two middle ones. */
  function Twice(xs: seq<int>): int
    requires xs != []
  {
    var s, n := Sort(xs), |xs|;
    if n % 2 == 1 then 2 * s[n / 2] else s[n / 2 - 1] + s[n / 2]
  }

  lemma {:induction false} SameAscending(xs: seq<int>, ys: seq<int>)
    requires Ascending(xs) && Ascending(ys) && multiset(xs) == multiset(ys)
    ensures xs == ys
  {
    SameLength(xs, ys);
    if xs != [] {
      LeastFirst(xs, ys);
      LeastFirst(ys, xs);
      SameTail(xs);
      SameTail(ys);
      SameAscending(xs[1..], ys[1..]);
    }
  }

  lemma SameTail(xs: seq<int>)
    requires xs != []
    ensures multiset(xs[1..]) == multiset(xs) - multiset{xs[0]}
  {
    assert xs == [xs[0]] + xs[1..];
  }

  lemma SameLength<T>(xs: seq<T>, ys: seq<T>)
    requires multiset(xs) == multiset(ys)
    ensures |xs| == |ys|
  {
    assert |multiset(xs)| == |xs| && |multiset(ys)| == |ys|;
  }

  lemma LeastFirst(xs: seq<int>, ys: seq<int>)
    requires Ascending(xs) && multiset(xs) == multiset(ys) && xs != [] && ys != []
    ensures xs[0] <= ys[0]
  {
    assert ys[0] in multiset(ys);
    assert ys[0] in xs;
  }

  /** Twice the median of an ascending list: its two middle elements, which are one when the length is odd. */
  function Middle(ys: seq<int>): int
    requires ys != []
  {
    ys[(|ys| - 1) / 2] + ys[|ys| / 2]
  }

  /** The median is the middle of any ascending arrangement. */
  lemma MedianIs(xs: seq<int>, ys: seq<int>)
    requires xs != [] && Ascending(ys) && multiset(ys) == multiset(xs)
    ensures |ys| == |xs| && Twice(xs) == Middle(ys)
  {
    SortAscending(xs);
    SameAscending(Sort(xs), ys);
    hide Sort;
  }
}
