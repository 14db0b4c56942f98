/** One trapped row: its JSON `result`, and what each step of the audit and each user action makes of
    it. The columns that mirror `result` (the error text) and the time columns are not modelled. */
module TrappedRows {
  import opened Wrappers
  import opened AuditItems
  import opened Issues

  /** The keys of the `result` object. `InfoKey` stands for all the columns copied from the document. */
  datatype Key =
    | FlaggedKey | RuleIdsKey | MessagesKey | SupersededKey | InfoKey
    | ResolvedKey | ResolutionNotesKey | ResolvedByKey | XeroResponseKey
    | DismissedKey | DismissalReasonKey | DismissedByKey
    | MarkedOkKey | MarkOkReasonKey | MarkedOkByKey
    | SnoozedUntilTsKey | SnoozedUntilKey | SnoozeReasonKey | SnoozedByKey
    | AutoClearedKey | AutoClearedBatchKey | AutoClearedAtKey

  datatype Info = Info(batch: string, details: string)

  datatype Json =
    | Flag(on: bool) | Number(n: int) | Text(s: string)
    | ItemList(items: seq<Item>) | TypeList(types: seq<IssueType>) | InfoOf(info: Info)

  type Result = map<Key, Json>

  datatype RowKind = DocumentRow(docType: string) | ContactRow | AccountRow

  datatype Row = Row(kind: RowKind, result: Result)

  // ----- Reading a result ----------------------------------------------------------------------

  /** Python truthiness of `result.get(key)`. */
  predicate Truthy(r: Result, k: Key) {
    k in r &&
    match r[k]
    case Flag(on) => on
    case Number(n) => n != 0
    case Text(s) => s != ""
    case ItemList(items) => items != []
    case TypeList(types) => types != []
    case InfoOf(_) => true
  }

  /** `result.get(key) or []` */
  function ItemsAt(r: Result, k: Key): seq<Item> {
    if k in r && r[k].ItemList? then r[k].items else []
  }

  function RuleIds(r: Result): seq<IssueType> {
    if RuleIdsKey in r && r[RuleIdsKey].TypeList? then r[RuleIdsKey].types else []
  }

  function Shown(row: Row): seq<Item> {
    ItemsAt(row.result, FlaggedKey)
  }

  function Hidden(row: Row): seq<Item> {
    ItemsAt(row.result, SupersededKey)
  }

  /** An explicit user end-state. */
  predicate Decided(row: Row) {
    Truthy(row.result, ResolvedKey) || Truthy(row.result, DismissedKey) || Truthy(row.result, MarkedOkKey)
  }

  predicate Cleared(row: Row) {
    Truthy(row.result, AutoClearedKey)
  }

  // ----- Lists of items ------------------------------------------------------------------------

  function IssueTypes(items: seq<Item>): (r: seq<IssueType>)
    ensures |r| == |items|
  {
    if items == [] then [] else [items[0].issue] + IssueTypes(items[1..])
  }

  /** The non-empty messages, joined with a bar. */
  function JoinMessages(items: seq<Item>): string {
    if items == [] then ""
    else
      var rest := JoinMessages(items[1..]);
      if items[0].message == "" then rest
      else if rest == "" then items[0].message
      else items[0].message + " | " + rest
  }

  /** The items whose type is not one of `types`, in order. */
  function Except(items: seq<Item>, types: set<IssueType>): (r: seq<Item>)
    ensures forall f :: f in r <==> f in items && f.issue !in types
  {
    if items == [] then []
    else if items[0].issue !in types then [items[0]] + Except(items[1..], types)
    else Except(items[1..], types)
  }

  /** The items whose type is one of `types`, in order. */
  function Only(items: seq<Item>, types: set<IssueType>): (r: seq<Item>)
    ensures forall f :: f in r <==> f in items && f.issue in types
  {
    if items == [] then []
    else if items[0].issue in types then [items[0]] + Only(items[1..], types)
    else Only(items[1..], types)
  }

  function TypesExcept(ids: seq<IssueType>, types: set<IssueType>): (r: seq<IssueType>)
    ensures forall t :: t in r <==> t in ids && t !in types
  {
    if ids == [] then []
    else if ids[0] !in types then [ids[0]] + TypesExcept(ids[1..], types)
    else TypesExcept(ids[1..], types)
  }

  const DUPLICATES: set<IssueType> := {DuplicateInvoice, DuplicateBill, DuplicateCreditNote}

  // ----- Scoring -------------------------------------------------------------------------------

  /** A freshly built result: nothing of an earlier result survives but what is passed in. */
  function Scored(shown: seq<Item>, hidden: seq<Item>, ruleIds: seq<IssueType>, info: Info): Result {
    map[FlaggedKey := ItemList(shown), RuleIdsKey := TypeList(ruleIds),
        MessagesKey := Text(JoinMessages(shown)), InfoKey := InfoOf(info)]
    + if hidden != [] then map[SupersededKey := ItemList(hidden)] else map[]
  }

  /** What a run has to say about one row. */
  datatype Verdict = Verdict(kind: RowKind, shown: seq<Item>, hidden: seq<Item>, ruleIds: seq<IssueType>, info: Info)

  /** `_persist_trapped` on one document: a new row, or a re-score of the old one. A run that evaluated
      only some types replaces the items of those types and keeps the others. */
  function Persist(before: Option<Row>, v: Verdict, evaluated: Option<set<IssueType>>): Row {
    match before
    case None => Row(v.kind, Scored(v.shown, v.hidden, v.ruleIds, v.info))
    case Some(row) =>
      if Decided(row) then
        row
      else if evaluated.None? then
        Row(row.kind, Scored(v.shown, v.hidden, v.ruleIds, v.info))
      else
        var shown := Except(Shown(row), evaluated.value) + v.shown;
        var hidden := Except(Hidden(row), evaluated.value) + v.hidden;
        Row(row.kind, Scored(shown, hidden, IssueTypes(shown), v.info))
  }

  // ----- Reconciling ---------------------------------------------------------------------------

  function MarkCleared(r: Result, batch: string, now: string): Result {
    r[AutoClearedKey := Flag(true)][AutoClearedBatchKey := Text(batch)][AutoClearedAtKey := Text(now)]
  }

  /** `_auto_clear_stale` on one stale row. */
  function Clear(row: Row, batch: string, now: string): Row {
    if Decided(row) || Cleared(row) then row else Row(row.kind, MarkCleared(row.result, batch, now))
  }

  /** The same result with other shown items. */
  function Rewritten(r: Result, shown: seq<Item>, ids: seq<IssueType>): Result {
    r[FlaggedKey := ItemList(shown)][RuleIdsKey := TypeList(ids)][MessagesKey := Text(JoinMessages(shown))]
  }

  /** `_reconcile_stale_duplicates` on one stale row. */
  function StripDuplicates(row: Row, batch: string, now: string): Row {
    var ids := RuleIds(row.result);
    var kept := TypesExcept(ids, DUPLICATES);
    if Decided(row) || Cleared(row) || kept == ids then
      row
    else if kept == [] then
      Row(row.kind, MarkCleared(row.result, batch, now))
    else
      Row(row.kind, Rewritten(row.result, Except(Shown(row), DUPLICATES), kept))
  }

  // ----- User actions --------------------------------------------------------------------------

  function Noted(r: Result, k: Key, text: string): Result {
    if text == "" then r else r[k := Text(text)]
  }

  function Resolve(row: Row, notes: string, user: string, response: Option<string>): Row {
    var r := Noted(Noted(row.result[ResolvedKey := Flag(true)], ResolutionNotesKey, notes), ResolvedByKey, user);
    Row(row.kind, if response.Some? then r[XeroResponseKey := Text(response.value)] else r)
  }

  function Dismiss(row: Row, reason: string, user: string): Row {
    var marked := row.result[DismissedKey := Flag(true)];
    Row(row.kind, Noted(Noted(marked, DismissalReasonKey, reason), DismissedByKey, user))
  }

  function Accept(row: Row, reason: string, user: string): Row {
    Row(row.kind, Noted(Noted(row.result[MarkedOkKey := Flag(true)], MarkOkReasonKey, reason), MarkedOkByKey, user))
  }

  function Snooze(row: Row, until: int, iso: string, reason: string, user: string): Row {
    var r := row.result[SnoozedUntilTsKey := Number(until)][SnoozedUntilKey := Text(iso)];
    Row(row.kind, Noted(Noted(r, SnoozeReasonKey, reason), SnoozedByKey, user))
  }

  /** The keys that `restore` removes. */
  const HIDE_KEYS: set<Key> := {
    MarkedOkKey, MarkOkReasonKey, MarkedOkByKey,
    DismissedKey, DismissalReasonKey, DismissedByKey,
    SnoozedUntilTsKey, SnoozedUntilKey, SnoozeReasonKey, SnoozedByKey}

  function Restore(row: Row): Row {
    Row(row.kind, row.result - HIDE_KEYS)
  }

  // ----- The contact-defaults list ---------------------------------------------------------------

  const CONTACT_DEFAULTS := OtherIssue("contact_defaults")

  /** Dismissing a contact from that list, or putting it back. */
  datatype DefaultsChange = DismissDefaults(reason: string) | ReinstateDefaults

  /** The rows that list looks for. */
  predicate IsDefaultsRow(row: Row) {
    row.kind == ContactRow && CONTACT_DEFAULTS in RuleIds(row.result)
  }

  /** Reinstating writes the mark as false; it does not remove it. */
  function ChangeDefaults(row: Row, change: DefaultsChange): Row {
    if !IsDefaultsRow(row) then
      row
    else
      match change
      case DismissDefaults(reason) =>
        Row(row.kind, Noted(row.result[DismissedKey := Flag(true)], DismissalReasonKey, reason))
      case ReinstateDefaults => Row(row.kind, row.result[DismissedKey := Flag(false)])
  }

  /** The minimal row that dismissing makes for a contact without one. */
  function NewDefaultsRow(contact: nat, reason: string): Row {
    var flag := Item(Uuid(contact), CONTACT_DEFAULTS, "", None, "", None);
    var result := map[FlaggedKey := ItemList([flag]), RuleIdsKey := TypeList([CONTACT_DEFAULTS]),
                      MessagesKey := Text(""), DismissedKey := Flag(true)];
    Row(ContactRow, Noted(result, DismissalReasonKey, reason))
  }

  // ----- Two ways of asking "is it open?" -------------------------------------------------------

  /** `result @> {key: true}` */
  predicate ContainsTrue(r: Result, k: Key) {
    k in r && r[k] == Flag(true)
  }

  /** The database filter of the feed. */
  predicate FeedShows(r: Result, now: int, includeDismissed: bool, includeMarkedOk: bool) {
    && !ContainsTrue(r, ResolvedKey)
    && !ContainsTrue(r, AutoClearedKey)
    && (SnoozedUntilTsKey in r && r[SnoozedUntilTsKey].Number? ==> r[SnoozedUntilTsKey].n <= now)
    && (includeMarkedOk || !ContainsTrue(r, MarkedOkKey))
    && (includeDismissed || !ContainsTrue(r, DismissedKey))
  }

  /** The in-memory predicate of the statistics. */
  predicate StatsOpen(r: Result, now: int) {
    var snoozed := SnoozedUntilTsKey in r && r[SnoozedUntilTsKey].Number? && r[SnoozedUntilTsKey].n > now;
    && !Truthy(r, ResolvedKey) && !Truthy(r, DismissedKey) && !Truthy(r, MarkedOkKey)
    && !Truthy(r, AutoClearedKey) && !snoozed
  }

  // ----- The row invariant ---------------------------------------------------------------------

  /** `rule_ids` lists the types of the shown items; account rows list their one type once. */
  predicate IdsMatch(ids: seq<IssueType>, shown: seq<Item>) {
    ids == IssueTypes(shown) || (ids == [MissingAccrual] && forall f :: f in shown ==> f.issue == MissingAccrual)
  }

  /** Marks are written as `True`, save that reinstating writes a dismissal as `False`; a snooze time is a
      number. */
  predicate MarksOk(r: Result) {
    && (ResolvedKey in r ==> r[ResolvedKey] == Flag(true))
    && (DismissedKey in r ==> r[DismissedKey].Flag?)
    && (MarkedOkKey in r ==> r[MarkedOkKey] == Flag(true))
    && (AutoClearedKey in r ==> r[AutoClearedKey] == Flag(true))
    && (SnoozedUntilTsKey in r ==> r[SnoozedUntilTsKey].Number?)
  }

  /** What a row says about itself is consistent: it shows something, its ids and messages are those of
      the shown items, and everything it hides is explained by something it shows. */
  ghost predicate ContentOk(r: Result) {
    var shown := ItemsAt(r, FlaggedKey);
    && shown != [] && Plain(shown)
    && IdsMatch(RuleIds(r), shown)
    && MessagesKey in r && r[MessagesKey] == Text(JoinMessages(shown))
    && Explained(ItemsAt(r, SupersededKey), shown)
  }

  ghost predicate RowOk(row: Row) {
    ContentOk(row.result) && MarksOk(row.result)
  }

  /** A verdict a run can give: it shows something untagged, and explains what it hides. */
  ghost predicate VerdictOk(v: Verdict) {
    && v.shown != [] && Plain(v.shown) && IdsMatch(v.ruleIds, v.shown) && Explained(v.hidden, v.shown)
  }

  // ----- List lemmas ---------------------------------------------------------------------------

  lemma {:induction false} TypeOfMember(items: seq<Item>, t: IssueType)
    ensures t in IssueTypes(items) <==> t in TypesOf(items)
  {
    if items != [] {
      TypeOfMember(items[1..], t);
      assert t in TypesOf(items) <==> t == items[0].issue || t in TypesOf(items[1..]) by {
        assert items[0] in items;
        assert forall f :: f in items[1..] ==> f in items;
      }
    }
  }

  lemma {:induction false} ProjectExcept(items: seq<Item>, types: set<IssueType>)
    ensures TypesExcept(IssueTypes(items), types) == IssueTypes(Except(items, types))
  {
    if items != [] {
      ProjectExcept(items[1..], types);
      var rest := Except(items[1..], types);
      assert ([items[0]] + rest)[1..] == rest;
    }
  }

  lemma {:induction false} ExceptNothing(items: seq<Item>, types: set<IssueType>)
    requires forall f :: f in items ==> f.issue !in types
    ensures Except(items, types) == items && Only(items, types) == []
  {
    if items != [] {
      assert items[0] in items;
      ExceptNothing(items[1..], types);
    }
  }

  lemma {:induction false} ExceptAll(items: seq<Item>, types: set<IssueType>)
    requires forall f :: f in items ==> f.issue in types
    ensures Except(items, types) == [] && Only(items, types) == items
  {
    if items != [] {
      assert items[0] in items;
      ExceptAll(items[1..], types);
    }
  }

  lemma {:induction false} ExceptAppend(xs: seq<Item>, ys: seq<Item>, types: set<IssueType>)
    ensures Except(xs + ys, types) == Except(xs, types) + Except(ys, types)
  {
    if xs == [] {
      assert xs + ys == ys;
    } else {
      assert (xs + ys)[1..] == xs[1..] + ys && (xs + ys)[0] == xs[0];
      ExceptAppend(xs[1..], ys, types);
    }
  }

  lemma {:induction false} OnlyAppend(xs: seq<Item>, ys: seq<Item>, types: set<IssueType>)
    ensures Only(xs + ys, types) == Only(xs, types) + Only(ys, types)
  {
    if xs == [] {
      assert xs + ys == ys;
    } else {
      assert (xs + ys)[1..] == xs[1..] + ys && (xs + ys)[0] == xs[0];
      OnlyAppend(xs[1..], ys, types);
    }
  }

  lemma {:induction false} ExceptTwice(items: seq<Item>, types: set<IssueType>)
    ensures Except(Except(items, types), types) == Except(items, types)
    ensures Only(Except(items, types), types) == []
  {
    ExceptNothing(Except(items, types), types);
  }

  lemma {:induction false} KeptAllTypes(ids: seq<IssueType>, types: set<IssueType>)
    ensures TypesExcept(ids, types) == ids <==> forall t :: t in ids ==> t !in types
    ensures |TypesExcept(ids, types)| <= |ids|
  {
    if ids != [] {
      KeptAllTypes(ids[1..], types);
    }
  }

  /** Removing duplicates keeps every explanation: neither side of one is a duplicate. */
  lemma ExplainedWithoutDuplicates(hidden: seq<Item>, shown: seq<Item>, more: seq<Item>)
    requires Explained(hidden, shown)
    ensures Explained(hidden, Except(shown, DUPLICATES) + more)
    ensures Except(hidden, DUPLICATES) == hidden
  {
    forall f | f in hidden
      ensures ExplainedBy(f, Except(shown, DUPLICATES) + more) && f.issue !in DUPLICATES
    {
      assert ExplainedBy(f, shown);
      var g :| g in shown && g.issue == f.supersededBy.value;
      assert g in Except(shown, DUPLICATES) + more;
    }
    ExceptNothing(hidden, DUPLICATES);
  }
}
