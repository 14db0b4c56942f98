/** The flags of an audit run before they are stored: fixed-asset dedup, the precedence hierarchy and
    grouping by document. */
module AuditItems {
  import opened Wrappers
  import opened Grouping
  import opened Issues

  /** A transaction id: a UUID, in canonical form, or text that is not one. */
  datatype TxId = Uuid(id: nat) | NotUuid(text: string)

  /** One flag. `lineAmount` (pence) is the amount a capital flag carries; `details` is everything else
      the flag records. */
  datatype Item = Item(
    txId: TxId, issue: IssueType, message: string, lineAmount: Option<int>, details: string,
    supersededBy: Option<IssueType>)

  // ----- Fixed-asset dedup ---------------------------------------------------------------------

  datatype Asset = Asset(price: int, purchased: Option<int>)

  /** On the register: value within a pound and purchase date within 30 days. */
  ghost predicate Registered(f: Item, txDay: Option<int>, assets: seq<Asset>) {
    && f.issue == CapitalItemReview && f.lineAmount.Some? && txDay.Some?
    && exists i :: 0 <= i < |assets| && assets[i].purchased.Some?
        && Abs(assets[i].price - f.lineAmount.value) <= 100
        && Abs(txDay.value - assets[i].purchased.value) <= 30
  }

  function DayOf(days: map<TxId, Option<int>>, id: TxId): Option<int> {
    if id in days then days[id] else None
  }

  ghost function Unregistered(flagged: seq<Item>, days: map<TxId, Option<int>>, assets: seq<Asset>): seq<Item> {
    if flagged == [] then []
    else
      var f := flagged[|flagged| - 1];
      Unregistered(flagged[..|flagged| - 1], days, assets)
      + if Registered(f, DayOf(days, f.txId), assets) then [] else [f]
  }

  /** The register scan of one flag, with its early return. */
  method AlreadyCapitalised(f: Item, days: map<TxId, Option<int>>, assets: seq<Asset>) returns (found: bool)
    ensures found <==> Registered(f, DayOf(days, f.txId), assets)
  {
    if f.issue != CapitalItemReview || f.lineAmount.None? {
      return false;
    }
    var day := DayOf(days, f.txId);
    for i := 0 to |assets|
      invariant forall j :: 0 <= j < i && day.Some? && assets[j].purchased.Some? ==>
        Abs(assets[j].price - f.lineAmount.value) > 100 || Abs(day.value - assets[j].purchased.value) > 30
    {
      var a := assets[i];
      if Abs(a.price - f.lineAmount.value) <= 100
        && day.Some? && a.purchased.Some? && Abs(day.value - a.purchased.value) <= 30 {
        return true;
      }
    }
    found := false;
  }

  /** `_drop_already_capitalised` */
  method DropAlreadyCapitalised(flagged: seq<Item>, days: map<TxId, Option<int>>, assets: seq<Asset>)
    returns (kept: seq<Item>)
    ensures kept == Unregistered(flagged, days, assets)
  {
    kept := [];
    for i := 0 to |flagged|
      invariant kept == Unregistered(flagged[..i], days, assets)
    {
      assert flagged[..i + 1][..i] == flagged[..i];
      var registered := AlreadyCapitalised(flagged[i], days, assets);
      if !registered {
        kept := kept + [flagged[i]];
      }
    }
    assert flagged[..|flagged|] == flagged;
  }

  // ----- Hierarchy -----------------------------------------------------------------------------

  predicate PaymentTier(t: IssueType) {
    t == UnusualPayment || t == AmountOutlier || t == MisallocatedItem
  }

  /** The issue type that explains lower tiers, if any: capital before prepayment, and within capital
      the review flag before the low-cost one. */
  function Winner(types: set<IssueType>): Option<IssueType> {
    if CapitalItemReview in types then Some(CapitalItemReview)
    else if LowCostFixedAsset in types then Some(LowCostFixedAsset)
    else if PrepaymentReview in types then Some(PrepaymentReview)
    else None
  }

  predicate Demotes(winner: IssueType, t: IssueType) {
    PaymentTier(t) || (winner != PrepaymentReview && t == PrepaymentReview)
  }

  function TagItem(f: Item, types: set<IssueType>): Item {
    var w := Winner(types);
    if w.Some? && Demotes(w.value, f.issue) && f.supersededBy.None? then f.(supersededBy := w) else f
  }

  function TypesOf(items: seq<Item>): set<IssueType> {
    set f | f in items :: f.issue
  }

  /** The types flagged on one transaction. */
  function TypesAt(items: seq<Item>, id: TxId): set<IssueType> {
    set f | f in items && f.txId == id :: f.issue
  }

  /** Every flag tagged by the winner among the flags of its own transaction. */
  function Tagged(items: seq<Item>): (r: seq<Item>)
    ensures |r| == |items|
  {
    seq(|items|, i requires 0 <= i < |items| => TagItem(items[i], TypesAt(items, items[i].txId)))
  }

  function Indices(n: nat): (r: seq<int>)
    ensures |r| == n && forall i :: 0 <= i < n ==> r[i] == i
  {
    seq(n, i requires 0 <= i => i)
  }

  function IndexKey(items: seq<Item>): int -> Option<TxId> {
    i => if 0 <= i < |items| then Some(items[i].txId) else None
  }

  /** Flag `i` of the list, tagged if its transaction has been dealt with. */
  ghost function TaggedSoFar(was: seq<Item>, ids: seq<TxId>, i: int): Item
    requires 0 <= i < |was|
  {
    if was[i].txId in ids then TagItem(was[i], TypesAt(was, was[i].txId)) else was[i]
  }

  /** `_apply_hierarchy`: flags are tagged in place, transaction by transaction. */
  method ApplyHierarchy(flags: array<Item>)
    modifies flags
    ensures flags[..] == Tagged(old(flags[..]))
  {
    hide TagItem, TypesAt, Bucket;
    var snapshot := flags[..];
    var order, byTx := GroupBy(Indices(|snapshot|), IndexKey(snapshot));
    for n := 0 to |order|
      invariant forall i :: 0 <= i < |snapshot| ==> flags[i] == TaggedSoFar(snapshot, order[..n], i)
    {
      assert order[..n + 1] == order[..n] + [order[n]];
      var group := byTx[order[n]];
      BucketIndices(snapshot, order[n]);
      var types := set i | i in group && 0 <= i < |snapshot| :: snapshot[i].issue;
      GroupTypes(snapshot, group, order[n], types);
      TagGroup(flags, group, types, snapshot, order[n]);
    }
    assert order[..|order|] == order;
    AllIndexed(snapshot, order, byTx);
  }

  lemma AllIndexed(items: seq<Item>, order: seq<TxId>, groups: map<TxId, seq<int>>)
    requires IsGrouping(Indices(|items|), IndexKey(items), order, groups)
    ensures forall i :: 0 <= i < |items| ==> items[i].txId in order
  {
    forall i | 0 <= i < |items|
      ensures items[i].txId in order
    {
      assert IndexKey(items)(Indices(|items|)[i]).value in groups;
    }
  }

  lemma BucketIndices(items: seq<Item>, id: TxId)
    ensures forall i :: i in Bucket(Indices(|items|), IndexKey(items), id) <==> 0 <= i < |items| && items[i].txId == id
  {
    forall i | 0 <= i < |items| && items[i].txId == id
      ensures i in Bucket(Indices(|items|), IndexKey(items), id)
    {
      BucketMember(Indices(|items|), IndexKey(items), id, i);
    }
  }

  lemma GroupTypes(items: seq<Item>, group: seq<int>, id: TxId, types: set<IssueType>)
    requires forall i :: i in group <==> 0 <= i < |items| && items[i].txId == id
    requires types == set i | i in group && 0 <= i < |items| :: items[i].issue
    ensures types == TypesAt(items, id)
  {
    forall f | f in items && f.txId == id
      ensures f.issue in types
    {
      var i :| 0 <= i < |items| && items[i] == f;
      assert i in group;
    }
  }

  /** The types of one transaction decide a winner; its lower-tier flags are tagged with it. */
  method TagGroup(flags: array<Item>, group: seq<int>, types: set<IssueType>, ghost was: seq<Item>, ghost id: TxId)
    requires flags.Length == |was|
    requires forall i :: i in group <==> 0 <= i < |was| && was[i].txId == id
    requires forall i :: i in group ==> flags[i] == was[i] || flags[i] == TagItem(was[i], types)
    modifies flags
    ensures forall i :: 0 <= i < |was| ==>
      flags[i] == if was[i].txId == id then TagItem(was[i], types) else old(flags[i])
  {
    hide Winner, Demotes;
    var winner := Winner(types);
    if winner.Some? {
      for k := 0 to |group|
        invariant forall j :: 0 <= j < k ==> group[j] in group && flags[group[j]] == TagItem(was[group[j]], types)
        invariant forall i :: i in group ==> flags[i] == was[i] || flags[i] == TagItem(was[i], types)
        invariant forall i :: 0 <= i < |was| && was[i].txId != id ==> flags[i] == old(flags[i])
      {
        var i := group[k];
        assert i in group;
        if Demotes(winner.value, flags[i].issue) && flags[i].supersededBy.None? {
          flags[i] := flags[i].(supersededBy := winner);
        }
      }
    }
  }

  // ----- Grouping by document ------------------------------------------------------------------

  /** `_group_flags_by_transaction` skips flags without a transaction id. */
  function TxKey(f: Item): Option<TxId> {
    if f.txId == NotUuid("") then None else Some(f.txId)
  }

  function Active(items: seq<Item>): (r: seq<Item>)
    ensures forall f :: f in r <==> f in items && f.supersededBy.None?
  {
    if items == [] then []
    else if items[0].supersededBy.None? then [items[0]] + Active(items[1..])
    else Active(items[1..])
  }

  function Superseded(items: seq<Item>): (r: seq<Item>)
    ensures forall f :: f in r <==> f in items && f.supersededBy.Some?
  {
    if items == [] then []
    else if items[0].supersededBy.Some? then [items[0]] + Superseded(items[1..])
    else Superseded(items[1..])
  }

  ghost predicate Plain(items: seq<Item>) {
    forall f :: f in items ==> f.supersededBy.None?
  }

  /** A demoted flag is explained: the type that outranks it is still shown on the same document, and
      duplicates are never involved. */
  predicate ExplainedBy(f: Item, shown: seq<Item>) {
    && f.supersededBy.Some? && f.supersededBy.value in TypesOf(shown)
    && !IsDuplicate(f.issue) && !IsDuplicate(f.supersededBy.value)
  }

  ghost predicate Explained(demoted: seq<Item>, shown: seq<Item>) {
    forall f :: f in demoted ==> ExplainedBy(f, shown)
  }

  /** The flags of a run for one document, after dedup and hierarchy. */
  ghost function GroupOf(flags: seq<Item>, days: map<TxId, Option<int>>, assets: seq<Asset>, id: TxId): seq<Item> {
    Bucket(Tagged(Unregistered(flags, days, assets)), TxKey, id)
  }

  predicate Has(items: seq<Item>, id: TxId, t: IssueType) {
    exists f :: f in items && f.txId == id && f.issue == t
  }

  /** Which flags end up hidden, and why: a payment-tier flag under a capital or prepayment flag of the
      same transaction, a prepayment flag under a capital one; a capital review flag takes the credit
      before a low-cost one. Nothing else about any flag changes. */
  lemma HierarchyMeans(items: seq<Item>, i: nat)
    requires Plain(items) && i < |items|
    ensures var f, g, id := items[i], Tagged(items)[i], items[i].txId;
      var capital := Has(items, id, CapitalItemReview) || Has(items, id, LowCostFixedAsset);
      && g.(supersededBy := None) == f
      && (g.supersededBy.Some? <==>
            if f.issue == PrepaymentReview then capital
            else
              && (f.issue == UnusualPayment || f.issue == AmountOutlier || f.issue == MisallocatedItem)
              && (capital || Has(items, id, PrepaymentReview)))
      && (g.supersededBy == Some(CapitalItemReview) ==> Has(items, id, CapitalItemReview))
      && (g.supersededBy == Some(LowCostFixedAsset) ==>
            Has(items, id, LowCostFixedAsset) && !Has(items, id, CapitalItemReview))
      && (g.supersededBy == Some(PrepaymentReview) ==> Has(items, id, PrepaymentReview) && !capital)
  {
    var id := items[i].txId;
    forall t
      ensures t in TypesAt(items, id) <==> Has(items, id, t)
    {}
    hide TypesAt, Has;
    assert items[i] in items;
  }

  lemma WinnerNotDemoted(types: set<IssueType>, f: Item)
    requires Winner(types) == Some(f.issue)
    ensures TagItem(f, types) == f && f.issue in types && !IsDuplicate(f.issue)
  {}

  /** Because the hierarchy runs after the dedup, no demotion is ever orphaned. */
  lemma DemotionsExplained(items: seq<Item>, id: TxId)
    requires Plain(items) && id != NotUuid("")
    ensures var group := Bucket(Tagged(items), TxKey, id);
      Explained(Superseded(group), Active(group)) && (group != [] ==> Active(group) != [])
  {
    hide Tagged, Bucket, Active, Superseded, ExplainedBy, TypesAt;
    var group := Bucket(Tagged(items), TxKey, id);
    forall f | f in group && f.supersededBy.Some?
      ensures ExplainedBy(f, Active(group)) && Active(group) != []
    {
      DemotionExplained(items, id, f);
    }
    assert group != [] ==> group[0] in group;
  }

  lemma DemotionExplained(items: seq<Item>, id: TxId, f: Item)
    requires Plain(items) && id != NotUuid("")
    requires f in Bucket(Tagged(items), TxKey, id) && f.supersededBy.Some?
    ensures ExplainedBy(f, Active(Bucket(Tagged(items), TxKey, id)))
    ensures Active(Bucket(Tagged(items), TxKey, id)) != []
  {
    hide Bucket, Active, TypesAt, Winner;
    var tagged, types := Tagged(items), TypesAt(items, id);
    var i :| 0 <= i < |tagged| && tagged[i] == f;
    assert f == TagItem(items[i], types) && items[i] in items;
    assert f.supersededBy == Winner(types) && Demotes(f.supersededBy.value, f.issue);
    var g := WinnerShown(items, id, f.supersededBy.value);
  }

  lemma WinnerShown(items: seq<Item>, id: TxId, w: IssueType) returns (g: Item)
    requires Plain(items) && id != NotUuid("") && Winner(TypesAt(items, id)) == Some(w)
    ensures g in Active(Bucket(Tagged(items), TxKey, id)) && g.issue == w && !IsDuplicate(w)
  {
    var types := TypesAt(items, id);
    assert w in types;
    g :| g in items && g.txId == id && g.issue == w;
    var i :| 0 <= i < |items| && items[i] == g;
    WinnerNotDemoted(types, g);
    assert Tagged(items)[i] == g;
    BucketMember(Tagged(items), TxKey, id, i);
  }

  lemma {:induction false} UnregisteredPlain(flags: seq<Item>, days: map<TxId, Option<int>>, assets: seq<Asset>)
    ensures forall f ::
      f in Unregistered(flags, days, assets) <==> f in flags && !Registered(f, DayOf(days, f.txId), assets)
  {
    if flags != [] {
      UnregisteredPlain(flags[..|flags| - 1], days, assets);
      assert flags == flags[..|flags| - 1] + [flags[|flags| - 1]];
    }
  }

  /** A run's own order of steps: everything demoted on a document is explained by what is shown. */
  lemma RunGroupsExplained(flags: seq<Item>, days: map<TxId, Option<int>>, assets: seq<Asset>, id: TxId)
    requires Plain(flags) && id != NotUuid("")
    ensures var group := GroupOf(flags, days, assets, id);
      Explained(Superseded(group), Active(group)) && (group != [] ==> Active(group) != [])
  {
    UnregisteredPlain(flags, days, assets);
    DemotionsExplained(Unregistered(flags, days, assets), id);
  }

  const DRILL := Item(Uuid(0), CapitalItemReview, "capital item", Some(90000), "", None)
  const ODD_PAYMENT := Item(Uuid(0), UnusualPayment, "unusual payment", None, "", None)

  lemma Alone(items: seq<Item>, f: Item)
    requires items == [f]
    ensures Active(items) == (if f.supersededBy.None? then [f] else [])
    ensures Superseded(items) == (if f.supersededBy.None? then [] else [f])
  {
    assert items[1..] == [];
  }

  lemma DrillDemotes()
    ensures Tagged([DRILL, ODD_PAYMENT]) == [DRILL, ODD_PAYMENT.(supersededBy := Some(CapitalItemReview))]
  {
    var items := [DRILL, ODD_PAYMENT];
    assert DRILL in items && ODD_PAYMENT in items;
    assert CapitalItemReview in TypesAt(items, Uuid(0));
    hide TypesAt;
  }

  lemma DrillRegistered(f: Item)
    requires f.issue == UnusualPayment
    ensures Unregistered([DRILL, f], map[Uuid(0) := Some(100)], [Asset(90050, Some(110))]) == [f]
  {
    var days, assets := map[Uuid(0) := Some(100)], [Asset(90050, Some(110))];
    assert Registered(DRILL, DayOf(days, Uuid(0)), assets) by {
      assert assets[0].purchased.Some?;
    }
    assert [DRILL, f][..1] == [DRILL] && [DRILL][..0] == [];
    assert Unregistered([DRILL], days, assets) == [];
  }

  /** The other order would orphan one: dropping a registered capital flag after it has demoted a
      payment flag leaves the document with nothing shown. */
  lemma DedupAfterHierarchyOrphans()
    ensures var days, assets := map[Uuid(0) := Some(100)], [Asset(90050, Some(110))];
      var kept := Unregistered(Tagged([DRILL, ODD_PAYMENT]), days, assets);
      Active(kept) == [] && Superseded(kept) != []
  {
    hide Unregistered, Tagged, Active, Superseded;
    var demoted := ODD_PAYMENT.(supersededBy := Some(CapitalItemReview));
    DrillDemotes();
    DrillRegistered(demoted);
    Alone([demoted], demoted);
  }
}
