/** What a whole audit run, or a user action, does to the row of one document. Rows never influence each
    other, so the state of the store is given document by document. */
module AuditRuns {
  import opened Wrappers
  import opened Grouping
  import opened AuditItems
  import opened Issues
  import opened TrappedRows
  import opened RowInvariant

  datatype Tx = Tx(docType: string, day: Option<int>, details: string)

  /** The inputs of a run. `engine` is what the rules engine reports, `contactFlags` and `accruals` what
      the contact and account checks report (`accruals` is absent when that rule is switched off). */
  datatype Run = Run(
    batch: string, now: string,
    txs: map<TxId, Tx>, engine: seq<Item>, assets: seq<Asset>,
    contacts: set<nat>, contactFlags: seq<Item>,
    accruals: Option<seq<Item>>)

  function Days(txs: map<TxId, Tx>): map<TxId, Option<int>> {
    map id | id in txs :: txs[id].day
  }

  // ----- What the run says about one id ---------------------------------------------------------

  ghost function DocGroup(run: Run, d: nat): seq<Item> {
    GroupOf(run.engine, Days(run.txs), run.assets, Uuid(d))
  }

  /** Contact checks run only when there are contacts. */
  function ContactFlags(run: Run): seq<Item> {
    if run.contacts == {} then [] else run.contactFlags
  }

  function ContactGroup(run: Run, d: nat): seq<Item> {
    Bucket(ContactFlags(run), TxKey, Uuid(d))
  }

  function AccountGroup(run: Run, d: nat): seq<Item> {
    if run.accruals.None? then [] else Bucket(run.accruals.value, TxKey, Uuid(d))
  }

  function DocVerdict(group: seq<Item>, tx: Tx, batch: string): Verdict {
    var shown := Active(group);
    Verdict(DocumentRow(tx.docType), shown, Superseded(group), IssueTypes(shown), Info(batch, tx.details))
  }

  function ContactVerdict(group: seq<Item>, batch: string): Verdict {
    Verdict(ContactRow, group, [], IssueTypes(group), Info(batch, ""))
  }

  function AccountVerdict(group: seq<Item>, batch: string): Verdict {
    Verdict(AccountRow, group, [], [MissingAccrual], Info(batch, ""))
  }

  // ----- The steps of a run, on one id ----------------------------------------------------------

  /** Persisting document flags; flags of unknown transactions are skipped. */
  ghost function PersistDocAt(before: Option<Row>, d: nat, run: Run, evaluated: Option<set<IssueType>>): Option<Row> {
    if DocGroup(run, d) != [] && Uuid(d) in run.txs
    then Some(Persist(before, DocVerdict(DocGroup(run, d), run.txs[Uuid(d)], run.batch), evaluated))
    else before
  }

  function PersistContactAt(before: Option<Row>, d: nat, run: Run): Option<Row> {
    var group := ContactGroup(run, d);
    if group != [] then Some(Persist(before, ContactVerdict(group, run.batch), None)) else before
  }

  function PersistAccountAt(before: Option<Row>, d: nat, run: Run): Option<Row> {
    var group := AccountGroup(run, d);
    if group != [] then Some(Persist(before, AccountVerdict(group, run.batch), None)) else before
  }

  function ClearAt(before: Option<Row>, stale: bool, run: Run): Option<Row> {
    if before.Some? && stale then Some(Clear(before.value, run.batch, run.now)) else before
  }

  function StripAt(before: Option<Row>, stale: bool, run: Run): Option<Row> {
    if before.Some? && stale then Some(StripDuplicates(before.value, run.batch, run.now)) else before
  }

  predicate StaleAccount(before: Option<Row>, d: nat, run: Run) {
    before.Some? && before.value.kind == AccountRow && run.accruals.Some? && AccountGroup(run, d) == []
  }

  /** Re-checked by this run: a fetched transaction or contact. */
  predicate Evaluated(run: Run, d: nat) {
    Uuid(d) in run.txs || d in run.contacts
  }

  ghost predicate Stale(run: Run, d: nat) {
    Evaluated(run, d) && DocGroup(run, d) == [] && ContactGroup(run, d) == []
  }

  /** A full run: documents, contacts, accounts, stale accounts, then stale documents and contacts. */
  ghost function FullAt(before: Option<Row>, d: nat, run: Run): Option<Row> {
    var documents := PersistDocAt(before, d, run, None);
    var contacts := PersistContactAt(documents, d, run);
    var accounts := PersistAccountAt(contacts, d, run);
    var reconciled := ClearAt(accounts, StaleAccount(accounts, d, run), run);
    ClearAt(reconciled, Stale(run, d), run)
  }

  /** A duplicates-only run merges the duplicate types and strips the stale ones; contact and account
      checks are skipped, so contacts count as re-checked and unflagged. */
  ghost function DuplicatesAt(before: Option<Row>, d: nat, run: Run): Option<Row> {
    StripAt(PersistDocAt(before, d, run, Some(DUPLICATES)), Evaluated(run, d) && DocGroup(run, d) == [], run)
  }

  // ----- User actions and histories -------------------------------------------------------------

  datatype Action =
    | ResolveAction(notes: string, user: string, response: Option<string>)
    | DismissAction(reason: string, user: string)
    | AcceptAction(reason: string, user: string)
    | SnoozeAction(until: int, iso: string, reason: string, user: string)
    | RestoreAction
    | DefaultsAction(change: DefaultsChange)

  function Act(row: Row, a: Action): Row {
    match a
    case ResolveAction(notes, user, response) => Resolve(row, notes, user, response)
    case DismissAction(reason, user) => Dismiss(row, reason, user)
    case AcceptAction(reason, user) => Accept(row, reason, user)
    case SnoozeAction(until, iso, reason, user) => Snooze(row, until, iso, reason, user)
    case RestoreAction => Restore(row)
    case DefaultsAction(change) => ChangeDefaults(row, change)
  }

  /** A run commits stage by stage, so user actions can fall between two of its stages. */
  datatype Stage =
    | StoreDocuments | StoreContacts | StoreAccounts
    | ClearAccounts | ClearStale
    | MergeDuplicates | StripStale

  ghost function StageAt(before: Option<Row>, d: nat, run: Run, stage: Stage): Option<Row> {
    match stage
    case StoreDocuments => PersistDocAt(before, d, run, None)
    case StoreContacts => PersistContactAt(before, d, run)
    case StoreAccounts => PersistAccountAt(before, d, run)
    case ClearAccounts => ClearAt(before, StaleAccount(before, d, run), run)
    case ClearStale => ClearAt(before, Stale(run, d), run)
    case MergeDuplicates => PersistDocAt(before, d, run, Some(DUPLICATES))
    case StripStale => StripAt(before, Evaluated(run, d) && DocGroup(run, d) == [], run)
  }

  function ActAll(row: Row, actions: seq<Action>): Row {
    if actions == [] then row else Act(ActAll(row, actions[..|actions| - 1]), actions[|actions| - 1])
  }

  /** An action on document `doc`. Only dismissing contact defaults makes a row where there was none. */
  function ActAt(before: Option<Row>, d: nat, doc: nat, a: Action): Option<Row> {
    if doc != d then before
    else if before.Some? then Some(Act(before.value, a))
    else if a.DefaultsAction? && a.change.DismissDefaults? then Some(NewDefaultsRow(d, a.change.reason))
    else None
  }

  /** What rewrites a row as it was read before any lock: a stage of a run, and a user action on one row, which
      locks the row only after its session has loaded it and goes on with the loaded content. A bulk action
      reads under the lock and is a `UserAction` below. */
  datatype Write = StageWrite(run: Run, stage: Stage) | ActionWrite(doc: nat, action: Action)

  ghost function WriteAt(before: Option<Row>, d: nat, w: Write): Option<Row> {
    match w
    case StageWrite(run, stage) => StageAt(before, d, run, stage)
    case ActionWrite(doc, a) => ActAt(before, d, doc, a)
  }

  /** Whatever commits between an unlocked read and the write that follows is overwritten, if that write
      changes the row at all. */
  datatype Event =
    | RunStage(run: Run, stage: Stage)
    | UserAction(doc: nat, action: Action)
    | Overlapped(write: Write, between: seq<Event>)

  ghost function StepAt(before: Option<Row>, d: nat, e: Event): Option<Row>
    decreases e
  {
    match e
    case RunStage(run, stage) => StageAt(before, d, run, stage)
    case UserAction(doc, a) => ActAt(before, d, doc, a)
    case Overlapped(w, between) =>
      var written := WriteAt(before, d, w);
      if written == before then HistoryAt(before, d, between) else written
  }

  /** The row of `d` after any interleaving of run stages and actions. */
  ghost function HistoryAt(before: Option<Row>, d: nat, events: seq<Event>): Option<Row>
    decreases events
  {
    if events == [] then before
    else StepAt(HistoryAt(before, d, events[..|events| - 1]), d, events[|events| - 1])
  }

  /** The actions on document `d` in an event or a history. */
  function ActionsOn(e: Event, d: nat): set<Action>
    decreases e
  {
    match e
    case RunStage(_, _) => {}
    case UserAction(doc, a) => if doc == d then {a} else {}
    case Overlapped(w, between) =>
      (if w.ActionWrite? && w.doc == d then {w.action} else {}) + ActionsIn(between, d)
  }

  function ActionsIn(events: seq<Event>, d: nat): set<Action>
    decreases events
  {
    if events == [] then {} else ActionsIn(events[..|events| - 1], d) + ActionsOn(events[|events| - 1], d)
  }

  /** What the checks feed into a run: untagged flags, and accrual flags of their one type. */
  ghost predicate ValidRun(run: Run) {
    && Plain(run.engine) && Plain(run.contactFlags)
    && (run.accruals.Some? ==>
          Plain(run.accruals.value) && forall f :: f in run.accruals.value ==> f.issue == MissingAccrual)
  }

  /** With every other rule disabled the engine reports duplicates only. */
  ghost predicate ValidDuplicatesRun(run: Run) {
    ValidRun(run) && forall f :: f in run.engine ==> IsDuplicate(f.issue)
  }

  ghost predicate ValidStage(run: Run, stage: Stage) {
    if stage.MergeDuplicates? then ValidDuplicatesRun(run) else ValidRun(run)
  }

  ghost predicate ValidWrite(w: Write) {
    w.StageWrite? ==> ValidStage(w.run, w.stage)
  }

  ghost predicate ValidEvent(e: Event)
    decreases e
  {
    match e
    case RunStage(run, stage) => ValidStage(run, stage)
    case UserAction(_, _) => true
    case Overlapped(w, between) => ValidWrite(w) && ValidHistory(between)
  }

  ghost predicate ValidHistory(events: seq<Event>)
    decreases events
  {
    forall i :: 0 <= i < |events| ==> ValidEvent(events[i])
  }

  /** An undisturbed run is its stages in order. */
  function FullStages(run: Run): seq<Event> {
    [RunStage(run, StoreDocuments), RunStage(run, StoreContacts), RunStage(run, StoreAccounts),
     RunStage(run, ClearAccounts), RunStage(run, ClearStale)]
  }

  function DuplicatesStages(run: Run): seq<Event> {
    [RunStage(run, MergeDuplicates), RunStage(run, StripStale)]
  }

  lemma HistorySnoc(before: Option<Row>, d: nat, events: seq<Event>, e: Event)
    ensures HistoryAt(before, d, events + [e]) == StepAt(HistoryAt(before, d, events), d, e)
  {
    assert (events + [e])[..|events|] == events;
  }

  lemma {:induction false} HistoryAppend(before: Option<Row>, d: nat, xs: seq<Event>, ys: seq<Event>)
    ensures HistoryAt(before, d, xs + ys) == HistoryAt(HistoryAt(before, d, xs), d, ys)
  {
    hide StepAt;
    if ys == [] {
      assert xs + ys == xs;
    } else {
      var init := ys[..|ys| - 1];
      HistoryAppend(before, d, xs, init);
      HistorySnoc(before, d, xs + init, ys[|ys| - 1]);
      assert xs + ys == xs + init + [ys[|ys| - 1]];
    }
  }

  lemma RunsAreTheirStages(before: Option<Row>, d: nat, run: Run)
    ensures HistoryAt(before, d, FullStages(run)) == FullAt(before, d, run)
    ensures HistoryAt(before, d, DuplicatesStages(run)) == DuplicatesAt(before, d, run)
  {
    hide PersistDocAt, PersistContactAt, PersistAccountAt, ClearAt, StripAt, StaleAccount, Stale, DocGroup;
    var e := FullStages(run);
    assert e == [] + [e[0]] + [e[1]] + [e[2]] + [e[3]] + [e[4]];
    HistorySnoc(before, d, [], e[0]);
    HistorySnoc(before, d, [] + [e[0]], e[1]);
    HistorySnoc(before, d, [] + [e[0]] + [e[1]], e[2]);
    HistorySnoc(before, d, [] + [e[0]] + [e[1]] + [e[2]], e[3]);
    HistorySnoc(before, d, [] + [e[0]] + [e[1]] + [e[2]] + [e[3]], e[4]);
    var m := DuplicatesStages(run);
    assert m == [] + [m[0]] + [m[1]];
    HistorySnoc(before, d, [], m[0]);
    HistorySnoc(before, d, [] + [m[0]], m[1]);
  }

  // ----- The verdicts of a valid run ------------------------------------------------------------

  lemma DocVerdictOk(run: Run, d: nat, tx: Tx)
    requires ValidRun(run) && DocGroup(run, d) != []
    ensures VerdictOk(DocVerdict(DocGroup(run, d), tx, run.batch))
  {
    hide GroupOf, Explained, Active, Superseded;
    RunGroupsExplained(run.engine, Days(run.txs), run.assets, Uuid(d));
    ActivePlain(DocGroup(run, d));
  }

  lemma ActivePlain(items: seq<Item>)
    ensures Plain(Active(items))
  {}

  /** In a duplicates-only run nothing is demoted and everything shown is a duplicate. */
  lemma DuplicatesOnlyGroup(run: Run, d: nat)
    requires ValidDuplicatesRun(run)
    ensures var group := DocGroup(run, d);
      Superseded(group) == [] && Active(group) == group && forall f :: f in group ==> IsDuplicate(f.issue)
  {
    RunGroupsExplained(run.engine, Days(run.txs), run.assets, Uuid(d));
    var group := DocGroup(run, d);
    var kept := Unregistered(run.engine, Days(run.txs), run.assets);
    UnregisteredPlain(run.engine, Days(run.txs), run.assets);
    forall f | f in group
      ensures IsDuplicate(f.issue)
    {
      TaggedSource(kept, f);
    }
    forall f | f in group
      ensures f.supersededBy.None?
    {
      assert f.supersededBy.Some? ==> f in Superseded(group);
    }
    AllActive(group);
  }

  lemma TaggedSource(items: seq<Item>, f: Item)
    requires f in Tagged(items)
    ensures exists g :: g in items && g.issue == f.issue && g.txId == f.txId
  {
    var i :| 0 <= i < |items| && Tagged(items)[i] == f;
    assert items[i] in items;
  }

  lemma {:induction false} AllActive(items: seq<Item>)
    requires Plain(items)
    ensures Active(items) == items && Superseded(items) == []
  {
    if items != [] {
      assert items[0] in items;
      AllActive(items[1..]);
    }
  }

  lemma ContactVerdictOk(run: Run, d: nat)
    requires ValidRun(run) && ContactGroup(run, d) != []
    ensures VerdictOk(ContactVerdict(ContactGroup(run, d), run.batch))
  {}

  lemma AccountVerdictOk(run: Run, d: nat)
    requires ValidRun(run) && AccountGroup(run, d) != []
    ensures VerdictOk(AccountVerdict(AccountGroup(run, d), run.batch))
  {}

  // ----- The row invariant over runs, actions and histories --------------------------------------

  ghost predicate MaybeOk(row: Option<Row>) {
    row.Some? ==> RowOk(row.value)
  }

  lemma StoreDocumentsKeepsRow(before: Option<Row>, d: nat, run: Run, scoped: bool)
    requires MaybeOk(before) && ValidRun(run) && (scoped ==> ValidDuplicatesRun(run))
    ensures MaybeOk(PersistDocAt(before, d, run, if scoped then Some(DUPLICATES) else None))
  {
    hide RowOk, VerdictOk, DocGroup, Persist, ValidRun, ValidDuplicatesRun;
    if DocGroup(run, d) != [] && Uuid(d) in run.txs {
      DocVerdictOk(run, d, run.txs[Uuid(d)]);
      if scoped {
        DuplicatesOnlyGroup(run, d);
      }
      PersistKeepsRow(before, DocVerdict(DocGroup(run, d), run.txs[Uuid(d)], run.batch), scoped);
    }
  }

  lemma StoreSectionKeepsRow(before: Option<Row>, d: nat, run: Run)
    requires MaybeOk(before) && ValidRun(run)
    ensures MaybeOk(PersistContactAt(before, d, run)) && MaybeOk(PersistAccountAt(before, d, run))
  {
    hide RowOk, VerdictOk, ContactGroup, AccountGroup, ContactVerdict, AccountVerdict, Persist, ValidRun;
    if ContactGroup(run, d) != [] {
      ContactVerdictOk(run, d);
      PersistKeepsRow(before, ContactVerdict(ContactGroup(run, d), run.batch), false);
    }
    if AccountGroup(run, d) != [] {
      AccountVerdictOk(run, d);
      PersistKeepsRow(before, AccountVerdict(AccountGroup(run, d), run.batch), false);
    }
  }

  /** Each stage of a run keeps a row consistent, whatever happened before it. */
  lemma StageKeepsRow(before: Option<Row>, d: nat, run: Run, stage: Stage)
    requires MaybeOk(before) && ValidStage(run, stage)
    ensures MaybeOk(StageAt(before, d, run, stage))
  {
    hide RowOk, DocGroup, Stale, StaleAccount;
    hide PersistDocAt, PersistContactAt, PersistAccountAt, ClearAt, StripDuplicates;
    match stage
    case StoreDocuments => StoreDocumentsKeepsRow(before, d, run, false);
    case StoreContacts => StoreSectionKeepsRow(before, d, run);
    case StoreAccounts => StoreSectionKeepsRow(before, d, run);
    case ClearAccounts => ClearAtKeepsRow(before, StaleAccount(before, d, run), run);
    case ClearStale => ClearAtKeepsRow(before, Stale(run, d), run);
    case MergeDuplicates => StoreDocumentsKeepsRow(before, d, run, true);
    case StripStale =>
      if before.Some? {
        StripKeepsRow(before.value, run.batch, run.now);
      }
  }

  lemma ClearAtKeepsRow(before: Option<Row>, stale: bool, run: Run)
    requires MaybeOk(before)
    ensures MaybeOk(ClearAt(before, stale, run))
  {
    hide RowOk, Clear;
    if before.Some? {
      ClearKeepsRow(before.value, run.batch, run.now);
    }
  }

  lemma ActKeepsRow(row: Row, a: Action)
    requires RowOk(row)
    ensures RowOk(Act(row, a))
  {
    hide RowOk, Resolve, Dismiss, Accept, Snooze, Restore, ChangeDefaults, SameButNotes;
    var r := row.result;
    match a
    case ResolveAction(notes, user, response) =>
      MarkKeepsRow(row, ResolvedKey, Flag(true));
      ActionReads(row, notes, user, response, 0, "");
      SameButNotesOk(row.kind, r[ResolvedKey := Flag(true)], Act(row, a).result);
      ActKeepsKind(row, a);
    case DismissAction(reason, user) =>
      MarkKeepsRow(row, DismissedKey, Flag(true));
      ActionReads(row, reason, user, None, 0, "");
      SameButNotesOk(row.kind, r[DismissedKey := Flag(true)], Act(row, a).result);
      ActKeepsKind(row, a);
    case AcceptAction(reason, user) =>
      MarkKeepsRow(row, MarkedOkKey, Flag(true));
      ActionReads(row, reason, user, None, 0, "");
      SameButNotesOk(row.kind, r[MarkedOkKey := Flag(true)], Act(row, a).result);
      ActKeepsKind(row, a);
    case SnoozeAction(until, iso, reason, user) =>
      MarkKeepsRow(row, SnoozedUntilTsKey, Number(until));
      ActionReads(row, reason, user, None, until, iso);
      SameButNotesOk(row.kind, r[SnoozedUntilTsKey := Number(until)], Act(row, a).result);
      ActKeepsKind(row, a);
    case RestoreAction =>
      RestoreKeepsRow(row);
    case DefaultsAction(change) =>
      DefaultsKeepRow(row, change);
  }

  lemma ActKeepsKind(row: Row, a: Action)
    ensures Act(row, a).kind == row.kind
  {}

  lemma ActAtKeepsRow(before: Option<Row>, d: nat, doc: nat, a: Action)
    requires MaybeOk(before)
    ensures MaybeOk(ActAt(before, d, doc, a))
  {
    hide RowOk, Act, NewDefaultsRow;
    if before.Some? {
      ActKeepsRow(before.value, a);
    } else if a.DefaultsAction? && a.change.DismissDefaults? {
      NewDefaultsRowOk(d, a.change.reason);
    }
  }

  lemma {:induction false} StepKeepsRow(before: Option<Row>, d: nat, e: Event)
    requires MaybeOk(before) && ValidEvent(e)
    ensures MaybeOk(StepAt(before, d, e))
    decreases e
  {
    hide MaybeOk, StageAt, ActAt, ValidStage;
    match e
    case RunStage(run, stage) => StageKeepsRow(before, d, run, stage);
    case UserAction(doc, a) => ActAtKeepsRow(before, d, doc, a);
    case Overlapped(w, between) =>
      HistoryKeepsRow(before, d, between);
      if w.StageWrite? {
        StageKeepsRow(before, d, w.run, w.stage);
      } else {
        ActAtKeepsRow(before, d, w.doc, w.action);
      }
  }

  /** Over every history: a row that exists at any point is consistent. */
  lemma {:induction false} HistoryKeepsRow(before: Option<Row>, d: nat, events: seq<Event>)
    requires MaybeOk(before) && ValidHistory(events)
    ensures MaybeOk(HistoryAt(before, d, events))
    decreases events
  {
    hide MaybeOk, StepAt, ValidEvent;
    if events != [] {
      HistoryKeepsRow(before, d, events[..|events| - 1]);
      StepKeepsRow(HistoryAt(before, d, events[..|events| - 1]), d, events[|events| - 1]);
    }
  }
}
