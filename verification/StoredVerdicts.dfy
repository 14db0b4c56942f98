/** What a run leaves in the row of an id it flagged, told from the flags themselves: none is lost, none is
    invented, and each is where the hierarchy puts it. */
module StoredVerdicts {
  import opened Wrappers
  import opened Grouping
  import opened Issues
  import opened AuditItems
  import opened TrappedRows
  import opened RowInvariant
  import opened AuditRuns
  import opened AuditSafety

  function Untagged(items: seq<Item>): (r: seq<Item>)
    ensures |r| == |items| && forall i :: 0 <= i < |r| ==> r[i] == items[i].(supersededBy := None)
  {
    seq(|items|, i requires 0 <= i < |items| => items[i].(supersededBy := None))
  }

  /** What the engine reported on one id, less what the asset register explains. */
  ghost function ReportedOn(run: Run, d: nat): seq<Item> {
    Bucket(Unregistered(run.engine, Days(run.txs), run.assets), TxKey, Uuid(d))
  }

  /** A capital review flag with a value within a pound and a document date within 30 days of some asset. */
  ghost predicate OnRegister(run: Run, f: Item) {
    && f.issue == CapitalItemReview && f.lineAmount.Some? && f.txId in run.txs && run.txs[f.txId].day.Some?
    && exists i :: 0 <= i < |run.assets| && Matches(run.assets[i], f.lineAmount.value, run.txs[f.txId].day.value)
  }

  predicate Matches(asset: Asset, amount: int, day: int) {
    && asset.price - 100 <= amount <= asset.price + 100
    && asset.purchased.Some? && asset.purchased.value - 30 <= day <= asset.purchased.value + 30
  }

  lemma RegisteredIff(run: Run, f: Item)
    ensures Registered(f, DayOf(Days(run.txs), f.txId), run.assets) <==> OnRegister(run, f)
  {
    if OnRegister(run, f) {
      var i :| 0 <= i < |run.assets| && Matches(run.assets[i], f.lineAmount.value, run.txs[f.txId].day.value);
      assert run.assets[i].purchased.Some?;
    }
    if Registered(f, DayOf(Days(run.txs), f.txId), run.assets) {
      var day := run.txs[f.txId].day.value;
      var i :| 0 <= i < |run.assets| && run.assets[i].purchased.Some?
               && Abs(run.assets[i].price - f.lineAmount.value) <= 100
               && Abs(day - run.assets[i].purchased.value) <= 30;
      assert Matches(run.assets[i], f.lineAmount.value, day);
    }
  }

  /** These are the flags of the engine that name the document and are not on the register. */
  lemma ReportedOnIff(run: Run, d: nat, f: Item)
    ensures f in ReportedOn(run, d) <==> f in run.engine && f.txId == Uuid(d) && !OnRegister(run, f)
  {
    UnregisteredPlain(run.engine, Days(run.txs), run.assets);
    RegisteredIff(run, f);
    var kept := Unregistered(run.engine, Days(run.txs), run.assets);
    hide Unregistered, OnRegister, Registered, Days;
    if f in kept && f.txId == Uuid(d) {
      var i :| 0 <= i < |kept| && kept[i] == f;
      BucketMember(kept, TxKey, Uuid(d), i);
    }
  }

  lemma {:induction false} SplitByTag(items: seq<Item>)
    ensures multiset(Active(items)) + multiset(Superseded(items)) == multiset(items)
  {
    if items != [] {
      SplitByTag(items[1..]);
      assert items == [items[0]] + items[1..];
    }
  }

  /** Both lists keep the order of the flags. */
  lemma {:induction false} ActiveKeepsOrder(xs: seq<Item>, ys: seq<Item>)
    ensures Active(xs + ys) == Active(xs) + Active(ys)
  {
    if xs == [] {
      assert xs + ys == ys;
    } else {
      assert (xs + ys)[1..] == xs[1..] + ys;
      ActiveKeepsOrder(xs[1..], ys);
    }
  }

  lemma {:induction false} SupersededKeepsOrder(xs: seq<Item>, ys: seq<Item>)
    ensures Superseded(xs + ys) == Superseded(xs) + Superseded(ys)
  {
    if xs == [] {
      assert xs + ys == ys;
    } else {
      assert (xs + ys)[1..] == xs[1..] + ys;
      SupersededKeepsOrder(xs[1..], ys);
    }
  }

  lemma {:induction false} UntagBucket(xs: seq<Item>, ys: seq<Item>, id: TxId)
    requires |xs| == |ys| && forall i :: 0 <= i < |xs| ==> ys[i].(supersededBy := None) == xs[i]
    ensures Untagged(Bucket(ys, TxKey, id)) == Bucket(xs, TxKey, id)
  {
    if xs != [] {
      UntagBucket(xs[1..], ys[1..], id);
      assert ys[0].txId == xs[0].txId;
      var rest := Bucket(ys[1..], TxKey, id);
      assert Untagged([ys[0]] + rest) == [xs[0]] + Untagged(rest);
    }
  }

  /** The hierarchy tags flags; it drops none and changes nothing else about them. */
  lemma GroupIsReported(run: Run, d: nat)
    requires ValidRun(run)
    ensures Untagged(DocGroup(run, d)) == ReportedOn(run, d)
  {
    var kept := Unregistered(run.engine, Days(run.txs), run.assets);
    UnregisteredPlain(run.engine, Days(run.txs), run.assets);
    hide Unregistered, Tagged;
    forall i | 0 <= i < |kept|
      ensures Tagged(kept)[i].(supersededBy := None) == kept[i]
    {
      HierarchyMeans(kept, i);
    }
    UntagBucket(kept, Tagged(kept), Uuid(d));
  }

  /** Everything the row shows or hides is a flag of the group, as often as the group has it, and what it hides
      are the demoted ones. */
  ghost predicate HoldsAll(row: Row, group: seq<Item>) {
    && multiset(Shown(row)) + multiset(Hidden(row)) == multiset(group)
    && (forall f :: f in Hidden(row) <==> f in group && f.supersededBy.Some?)
    && (forall f :: f in Shown(row) <==> f in group && f.supersededBy.None?)
  }

  /** The row lists the types and the messages of what it shows, and records the run and the details. */
  ghost predicate Records(row: Row, batch: string, details: string) {
    && |RuleIds(row.result)| == |Shown(row)|
    && (forall i :: 0 <= i < |Shown(row)| ==> RuleIds(row.result)[i] == Shown(row)[i].issue)
    && MessagesKey in row.result && row.result[MessagesKey] == Text(JoinMessages(Shown(row)))
    && InfoKey in row.result && row.result[InfoKey] == InfoOf(Info(batch, details))
  }

  lemma {:induction false} TypesInOrder(items: seq<Item>, i: nat)
    requires i < |items|
    ensures IssueTypes(items)[i] == items[i].issue
  {
    if i > 0 {
      TypesInOrder(items[1..], i - 1);
    }
  }

  lemma ScoreHoldsAll(kind: RowKind, group: seq<Item>, tx: Tx, batch: string)
    ensures var v := DocVerdict(group, tx, batch);
      var row := Row(kind, Scored(v.shown, v.hidden, v.ruleIds, v.info));
      HoldsAll(row, group) && Records(row, batch, tx.details)
  {
    var v := DocVerdict(group, tx, batch);
    SplitByTag(group);
    ScoredReads(v.shown, v.hidden, v.ruleIds, v.info);
    ScoreRecords(kind, v.shown, v.hidden, batch, tx.details);
    hide IssueTypes, JoinMessages, Records, Scored;
  }

  lemma ScoreRecords(kind: RowKind, shown: seq<Item>, hidden: seq<Item>, batch: string, details: string)
    ensures Records(Row(kind, Scored(shown, hidden, IssueTypes(shown), Info(batch, details))), batch, details)
  {
    var result := Scored(shown, hidden, IssueTypes(shown), Info(batch, details));
    ScoredReads(shown, hidden, IssueTypes(shown), Info(batch, details));
    assert result[InfoKey] == InfoOf(Info(batch, details));
    hide IssueTypes, JoinMessages, Scored;
    forall i | 0 <= i < |shown|
      ensures IssueTypes(shown)[i] == shown[i].issue
    {
      TypesInOrder(shown, i);
    }
  }

  /** Storing the flags of a known document in a full run, or making its first row in any: every flag reported on
      it is shown or, if demoted, hidden. */
  lemma StoringHoldsAll(before: Option<Row>, d: nat, run: Run, evaluated: Option<set<IssueType>>)
    requires before.Some? ==> !Decided(before.value) && evaluated.None?
    requires DocGroup(run, d) != [] && Uuid(d) in run.txs
    ensures var after, tx := PersistDocAt(before, d, run, evaluated), run.txs[Uuid(d)];
      && after.Some? && HoldsAll(after.value, DocGroup(run, d)) && Records(after.value, run.batch, tx.details)
      && after.value.kind == if before.Some? then before.value.kind else DocumentRow(tx.docType)
  {
    var kind := if before.Some? then before.value.kind else DocumentRow(run.txs[Uuid(d)].docType);
    ScoreHoldsAll(kind, DocGroup(run, d), run.txs[Uuid(d)], run.batch);
    hide DocGroup, HoldsAll, Records, Scored, Decided, Active, Superseded, IssueTypes;
  }

  /** After a full run the row of a flagged document that no user had decided holds every flag the engine reported
      on it and the register did not explain, the demoted ones hidden; the row records the run that did so. */
  lemma FullRunLosesNothing(before: Option<Row>, d: nat, run: Run)
    requires OneSection(before, d, run) && ValidRun(run) && (before.Some? ==> !Decided(before.value))
    requires DocGroup(run, d) != [] && Uuid(d) in run.txs
    ensures var after, tx := FullAt(before, d, run), run.txs[Uuid(d)];
      && after.Some? && HoldsAll(after.value, DocGroup(run, d)) && Records(after.value, run.batch, tx.details)
      && multiset(Untagged(DocGroup(run, d))) == multiset(ReportedOn(run, d))
      && after.value.kind == if before.Some? then before.value.kind else DocumentRow(tx.docType)
  {
    GroupIsReported(run, d);
    StoringHoldsAll(before, d, run, None);
    FlaggedDocumentOnly(before, d, run);
    hide DocGroup, HoldsAll, Records, FullAt, Decided, PersistDocAt, OneSection, ValidRun;
  }

  /** The other stages of a full run leave a flagged document alone. */
  lemma FlaggedDocumentOnly(before: Option<Row>, d: nat, run: Run)
    requires OneSection(before, d, run) && DocGroup(run, d) != [] && Uuid(d) in run.txs
    ensures FullAt(before, d, run) == PersistDocAt(before, d, run, None)
  {
    KindOfDocument(before, d, run);
    hide DocGroup, ContactGroup, AccountGroup, PersistDocAt, DocVerdict, ContactVerdict, AccountVerdict, Clear;
  }

  lemma KindOfDocument(before: Option<Row>, d: nat, run: Run)
    requires DocGroup(run, d) != [] && Uuid(d) in run.txs && (before.Some? ==> before.value.kind != AccountRow)
    ensures var after := PersistDocAt(before, d, run, None); after.Some? && after.value.kind != AccountRow
  {
    KindOfNew(before, DocVerdict(DocGroup(run, d), run.txs[Uuid(d)], run.batch));
    hide DocGroup, Persist, Active, Superseded, IssueTypes;
  }

  /** A duplicates-only run that makes the first row of a document loses nothing either. */
  lemma FirstInsertLosesNothing(d: nat, run: Run)
    requires ValidDuplicatesRun(run) && DocGroup(run, d) != [] && Uuid(d) in run.txs
    ensures var after, tx := DuplicatesAt(None, d, run), run.txs[Uuid(d)];
      && after.Some? && HoldsAll(after.value, DocGroup(run, d)) && Records(after.value, run.batch, tx.details)
      && multiset(Untagged(DocGroup(run, d))) == multiset(ReportedOn(run, d))
      && after.value.kind == DocumentRow(tx.docType)
  {
    GroupIsReported(run, d);
    StoringHoldsAll(None, d, run, Some(DUPLICATES));
    hide DocGroup, HoldsAll, Records, PersistDocAt, ValidRun;
  }

  // ----- Contacts and accounts ------------------------------------------------------------------

  /** What the contact and account checks report on an id is shown whole and in order; accounts list their one
      type once. */
  lemma SectionsLoseNothing(before: Option<Row>, d: nat, run: Run)
    requires before.Some? ==> !Decided(before.value)
    ensures ContactGroup(run, d) != [] ==>
      var after := PersistContactAt(before, d, run);
      && after.Some? && Shown(after.value) == Bucket(run.contactFlags, TxKey, Uuid(d)) && Hidden(after.value) == []
      && Records(after.value, run.batch, "")
      && after.value.kind == if before.Some? then before.value.kind else ContactRow
    ensures AccountGroup(run, d) != [] ==>
      var after := PersistAccountAt(before, d, run);
      && after.Some? && Shown(after.value) == Bucket(run.accruals.value, TxKey, Uuid(d)) && Hidden(after.value) == []
      && RuleIds(after.value.result) == [MissingAccrual]
      && after.value.kind == if before.Some? then before.value.kind else AccountRow
  {
    var contacts, accounts := ContactGroup(run, d), AccountGroup(run, d);
    ScoredReads(contacts, [], IssueTypes(contacts), Info(run.batch, ""));
    ScoredReads(accounts, [], [MissingAccrual], Info(run.batch, ""));
    forall i | 0 <= i < |contacts|
      ensures IssueTypes(contacts)[i] == contacts[i].issue
    {
      TypesInOrder(contacts, i);
    }
    hide Bucket, Decided, JoinMessages, IssueTypes;
  }

  // ----- Messages ------------------------------------------------------------------------------

  /** The messages of two lists of flags, one after the other with a bar between them when both have any. */
  lemma {:induction false} MessagesAppend(xs: seq<Item>, ys: seq<Item>)
    ensures var m, n := JoinMessages(xs), JoinMessages(ys);
      JoinMessages(xs + ys) == if m == "" then n else if n == "" then m else m + " | " + n
  {
    if xs == [] {
      assert xs + ys == ys;
    } else {
      assert (xs + ys)[1..] == xs[1..] + ys;
      MessagesAppend(xs[1..], ys);
      var first, rest, n := xs[0].message, JoinMessages(xs[1..]), JoinMessages(ys);
      assert first + " | " + (rest + " | " + n) == first + " | " + rest + " | " + n;
    }
  }

  lemma MessageOfOne(f: Item)
    ensures JoinMessages([f]) == f.message
  {
    assert [f][1..] == [];
  }

  /** A mark counts unless it is absent or one of the empty values. */
  lemma TruthyIff(r: Result, k: Key)
    ensures Truthy(r, k) <==>
      k in r && r[k] !in {Flag(false), Number(0), Text(""), ItemList([]), TypeList([])}
  {}

  // ----- The contact-defaults list ----------------------------------------------------------------

  /** A row of the list, if consistent, is a contact's and shows a flag of that one type. */
  lemma DefaultsRowIff(row: Row)
    requires RowOk(row)
    ensures IsDefaultsRow(row) <==>
      row.kind == ContactRow && exists f :: f in Shown(row) && f.issue == OtherIssue("contact_defaults")
  {
    var shown := Shown(row);
    TypeOfMember(shown, CONTACT_DEFAULTS);
    hide IssueTypes, JoinMessages, Explained;
    if RuleIds(row.result) == IssueTypes(shown) {
      assert CONTACT_DEFAULTS in TypesOf(shown) <==> exists f :: f in shown && f.issue == CONTACT_DEFAULTS;
    }
  }

  /** The row made for a contact without one is on the list, dismissed, and flags that contact for nothing else. */
  lemma NewRowSays(contact: nat, reason: string)
    ensures var row := NewDefaultsRow(contact, reason);
      && IsDefaultsRow(row) && Truthy(row.result, DismissedKey) && Hidden(row) == []
      && |Shown(row)| == 1 && Shown(row)[0].txId == Uuid(contact)
      && Shown(row)[0].issue == OtherIssue("contact_defaults")
      && (reason != "" ==> DismissalReasonKey in row.result && row.result[DismissalReasonKey] == Text(reason))
  {}

  // ----- Restoring --------------------------------------------------------------------------------

  function Plainest(kind: RowKind): Row {
    Row(kind, map[])
  }

  lemma HidingThat(k: Key) returns (a: Action)
    requires k in HIDE_KEYS
    ensures Hides(a) && k in Act(Plainest(ContactRow), a).result
  {
    match k
    case DismissedKey | DismissalReasonKey | DismissedByKey => a := DismissAction("reason", "user");
    case MarkedOkKey | MarkOkReasonKey | MarkedOkByKey => a := AcceptAction("reason", "user");
    case _ => a := SnoozeAction(0, "", "reason", "user");
  }

  /** `restore` removes exactly what some dismissing, accepting or snoozing writes. */
  lemma RestoreRemovesWhatHides(k: Key)
    ensures k in HIDE_KEYS <==> exists a :: Hides(a) && k in Act(Plainest(ContactRow), a).result
  {
    var row := Plainest(ContactRow);
    if k in HIDE_KEYS {
      var a := HidingThat(k);
    }
    if a :| Hides(a) && k in Act(row, a).result {
      HidingWritesHideKeys(row, a);
      assert k !in row.result - HIDE_KEYS;
      assert k !in HIDE_KEYS ==> k in Act(row, a).result - HIDE_KEYS;
    }
  }
}
