/** Histories of one bill, and of one contact, for which a promise of the audit fails. */
module AuditExamples {
  import opened Wrappers
  import opened Grouping
  import opened Issues
  import opened AuditItems
  import opened TrappedRows
  import opened RowInvariant
  import opened AuditRuns
  import opened AuditSafety
  import opened Snoozing

  // ----- One document through three runs --------------------------------------------------------

  const PREPAYMENT := Item(Uuid(0), PrepaymentReview, "may be a prepayment", None, "", None)
  const COPY := Item(Uuid(0), DuplicateBill, "likely duplicate", None, "", None)

  /** A run over one bill, with whatever the engine reports. */
  function OneBill(engine: seq<Item>): Run {
    Run("batch", "now", map[Uuid(0) := Tx("ACCPAY", None, "")], engine, [], {}, [], None)
  }

  lemma GroupOfOne(f: Item)
    requires f.txId == Uuid(0) && f.supersededBy.None?
    ensures DocGroup(OneBill([f]), 0) == [f]
  {
    var days := Days(OneBill([f]).txs);
    assert [f][..0] == [];
    assert Unregistered([f], days, []) == [f];
    TaggedAlone(f);
    hide Tagged, Unregistered;
    assert [f][1..] == [];
    assert Bucket([f], TxKey, Uuid(0)) == [f] + Bucket([], TxKey, Uuid(0)) == [f];
  }

  /** A single flag is never superseded. */
  lemma TaggedAlone(f: Item)
    requires f.supersededBy.None?
    ensures Tagged([f]) == [f]
  {
    assert TypesAt([f], f.txId) == {f.issue};
    hide TypesAt;
    assert TagItem(f, {f.issue}) == f;
  }

  lemma NothingReported()
    ensures DocGroup(OneBill([]), 0) == []
  {
    assert Tagged([]) == [];
  }

  function Flagged(): seq<Event> {
    FullStages(OneBill([PREPAYMENT]))
  }

  lemma AfterFlagged()
    ensures ShowsVerdict(HistoryAt(None, 0, Flagged()), DocVerdict([PREPAYMENT], Tx("ACCPAY", None, ""), "batch"))
    ensures MaybeOk(HistoryAt(None, 0, Flagged()))
  {
    var run := OneBill([PREPAYMENT]);
    GroupOfOne(PREPAYMENT);
    OneBillSections(None, [PREPAYMENT]);
    hide DocGroup, FullAt, ShowsVerdict, DocVerdict, HistoryAt, ContactGroup, AccountGroup;
    LatestFullRunWins(None, 0, run);
    RunsAreTheirStages(None, 0, run);
    HistoryKeepsRow(None, 0, Flagged()) by { OneBillValid([PREPAYMENT]); }
  }

  lemma OneBillSections(before: Option<Row>, engine: seq<Item>)
    requires before.Some? ==> before.value.kind != AccountRow
    ensures OneSection(before, 0, OneBill(engine)) && Uuid(0) in OneBill(engine).txs
  {
    hide DocGroup;
  }

  lemma OneBillValid(engine: seq<Item>)
    requires Plain(engine)
    ensures ValidHistory(FullStages(OneBill(engine)))
  {}

  /** A duplicates-only run disturbs another check: a full run flags a prepayment, the next one does not and
      clears the row, then a duplicates-only run flags the bill - and the stale prepayment is back. */
  lemma StalePrepaymentReturns(now: int)
    ensures var cleared := HistoryAt(None, 0, Flagged() + FullStages(OneBill([])));
      cleared.Some? && Cleared(cleared.value) && !FeedShows(cleared.value.result, now, true, true)
    ensures var after := HistoryAt(None, 0, Flagged() + FullStages(OneBill([])) + DuplicatesStages(OneBill([COPY])));
      after.Some? && Visible(after.value) && Rest(after.value) == [PREPAYMENT] && Copies(after.value) == [COPY]
  {
    hide *;
    var flagged, clean, copies := Flagged(), FullStages(OneBill([])), DuplicatesStages(OneBill([COPY]));
    HistoryAppend(None, 0, flagged, clean);
    HistoryAppend(None, 0, flagged + clean, copies);
    var row := FlaggedRow();
    var stale := ClearedRow(row, now);
    RevivedRow(stale);
  }

  lemma FlaggedRow() returns (row: Row)
    ensures HistoryAt(None, 0, Flagged()) == Some(row)
    ensures RowOk(row) && Visible(row) && row.kind == DocumentRow("ACCPAY")
    ensures Shown(row) == [PREPAYMENT] && SnoozeTime(row) == None
  {
    AfterFlagged();
    row := HistoryAt(None, 0, Flagged()).value;
    FlaggedKind();
    hide HistoryAt, RowOk, Visible, Shown;
    SinglePlain(PREPAYMENT);
  }

  lemma SinglePlain(f: Item)
    requires f.supersededBy.None?
    ensures Active([f]) == [f] && Superseded([f]) == []
  {
    assert [f][1..] == [];
  }

  lemma FlaggedKind()
    ensures HistoryAt(None, 0, Flagged()).Some? && HistoryAt(None, 0, Flagged()).value.kind == DocumentRow("ACCPAY")
  {
    var run := OneBill([PREPAYMENT]);
    GroupOfOne(PREPAYMENT);
    RunsAreTheirStages(None, 0, run);
    hide DocGroup, HistoryAt, Scored;
    NoSections([PREPAYMENT]);
  }

  lemma NoSections(engine: seq<Item>)
    ensures ContactGroup(OneBill(engine), 0) == [] && AccountGroup(OneBill(engine), 0) == []
  {}

  lemma ClearedRow(row: Row, now: int) returns (stale: Row)
    requires RowOk(row) && Visible(row) && row.kind == DocumentRow("ACCPAY") && Shown(row) == [PREPAYMENT]
    ensures HistoryAt(Some(row), 0, FullStages(OneBill([]))) == Some(stale)
    ensures RowOk(stale) && Cleared(stale) && !Decided(stale) && Shown(stale) == [PREPAYMENT]
    ensures !FeedShows(stale.result, now, true, true)
  {
    var run := OneBill([]);
    NothingReported();
    NoSections([]);
    RunsAreTheirStages(Some(row), 0, run);
    hide DocGroup, ContactGroup, AccountGroup, HistoryAt, RowOk, MarkCleared;
    stale := Clear(row, run.batch, run.now);
    ClearKeepsRow(row, run.batch, run.now);
    ClearReads(row.result, run.batch, run.now);
    ClearedHidden(stale, now);
  }

  lemma ClearedHidden(row: Row, now: int)
    requires RowOk(row) && Cleared(row)
    ensures !FeedShows(row.result, now, true, true)
  {
    hide ContentOk;
  }

  lemma CopyRunValid()
    ensures ValidDuplicatesRun(OneBill([COPY])) && Uuid(0) in OneBill([COPY]).txs
  {}

  lemma RestOfPrepayment(row: Row)
    requires Shown(row) == [PREPAYMENT]
    ensures Rest(row) == [PREPAYMENT]
  {
    ExceptNothing([PREPAYMENT], DUPLICATES);
  }

  lemma RevivedRow(row: Row)
    requires RowOk(row) && Cleared(row) && !Decided(row) && Shown(row) == [PREPAYMENT]
    ensures var after := HistoryAt(Some(row), 0, DuplicatesStages(OneBill([COPY])));
      after.Some? && Visible(after.value) && Rest(after.value) == [PREPAYMENT] && Copies(after.value) == [COPY]
  {
    var run := OneBill([COPY]);
    GroupOfOne(COPY);
    CopyRunValid();
    RestOfPrepayment(row);
    hide DocGroup, HistoryAt, RowOk, Rest, Copies, Visible, DuplicatesAt, ValidDuplicatesRun;
    RunsAreTheirStages(Some(row), 0, run);
    ScopedMergeRevives(row, 0, run);
  }

  // ----- A decision during a run ---------------------------------------------------------------

  const RESOLVE := ResolveAction("", "", None)

  /** A failing input: a user resolves the bill while a run that no longer flags it is clearing stale rows.
      The row ends cleared and not resolved. */
  lemma ResolveIsLost()
    ensures var after := HistoryAt(None, 0,
        Flagged() + [Overlapped(StageWrite(OneBill([]), ClearStale), [UserAction(0, RESOLVE)])]);
      after.Some? && Cleared(after.value) && !IsResolved(after)
  {
    var row := FlaggedRow();
    var e := Overlapped(StageWrite(OneBill([]), ClearStale), [UserAction(0, RESOLVE)]);
    HistorySnoc(None, 0, Flagged(), e);
    NothingReported();
    NoSections([]);
    hide HistoryAt, Act, DocGroup, ContactGroup, AccountGroup, Flagged, RowOk;
    assert Stale(OneBill([]), 0);
    ClearReads(row.result, "batch", "now");
    ClearChanges(row);
  }

  lemma ClearChanges(row: Row)
    requires Visible(row)
    ensures Clear(row, "batch", "now") != row && Cleared(Clear(row, "batch", "now"))
    ensures !Truthy(Clear(row, "batch", "now").result, ResolvedKey)
  {
    ClearReads(row.result, "batch", "now");
  }

  // ----- A snooze before a run -----------------------------------------------------------------

  const SNOOZE := SnoozeAction(100, "", "", "")

  /** Snoozed until 100 and flagged again by the next run, the bill is back in the feed at 50. */
  lemma SnoozeIsDropped()
    ensures var snoozed := HistoryAt(None, 0, Flagged() + [UserAction(0, SNOOZE)]);
      snoozed.Some? && SnoozeTime(snoozed.value) == Some(100) && !FeedShows(snoozed.value.result, 50, false, false)
    ensures var after := HistoryAt(None, 0,
        Flagged() + [UserAction(0, SNOOZE)] + [RunStage(OneBill([PREPAYMENT]), StoreDocuments)]);
      after.Some? && FeedShows(after.value.result, 50, false, false)
  {
    hide *;
    var row := FlaggedRow();
    var snoozed := SnoozedRow(row);
    var after := StoredAgain(snoozed);
    HistorySnoc(None, 0, Flagged(), UserAction(0, SNOOZE));
    HistorySnoc(None, 0, Flagged() + [UserAction(0, SNOOZE)], RunStage(OneBill([PREPAYMENT]), StoreDocuments));
  }

  lemma SnoozedRow(row: Row) returns (snoozed: Row)
    requires Visible(row)
    ensures StepAt(Some(row), 0, UserAction(0, SNOOZE)) == Some(snoozed)
    ensures !Decided(snoozed) && SnoozeTime(snoozed) == Some(100) && !FeedShows(snoozed.result, 50, false, false)
  {
    snoozed := Act(row, SNOOZE);
  }

  lemma StoredAgain(row: Row) returns (after: Row)
    requires !Decided(row)
    ensures StepAt(Some(row), 0, RunStage(OneBill([PREPAYMENT]), StoreDocuments)) == Some(after)
    ensures FeedShows(after.result, 50, false, false)
  {
    var run := OneBill([PREPAYMENT]);
    GroupOfOne(PREPAYMENT);
    var v := DocVerdict([PREPAYMENT], Tx("ACCPAY", None, ""), "batch");
    hide DocGroup, JoinMessages, Active, Superseded, IssueTypes, Decided;
    after := Persist(Some(row), v, None);
    ScoredReads(v.shown, v.hidden, v.ruleIds, v.info);
  }

  /** A lock taken after the read is no help: resolved while another user is snoozing it, the bill ends snoozed
      and not resolved. */
  lemma SnoozeLosesResolve()
    ensures var after := HistoryAt(None, 0,
        Flagged() + [Overlapped(ActionWrite(0, SNOOZE), [UserAction(0, RESOLVE)])]);
      after.Some? && !IsResolved(after) && SnoozeTime(after.value) == Some(100)
  {
    hide *;
    var row := FlaggedRow();
    SnoozeOverwrites(row);
    HistorySnoc(None, 0, Flagged(), Overlapped(ActionWrite(0, SNOOZE), [UserAction(0, RESOLVE)]));
  }

  lemma SnoozeOverwrites(row: Row)
    requires Visible(row) && SnoozeTime(row) == None
    ensures var after := StepAt(Some(row), 0, Overlapped(ActionWrite(0, SNOOZE), [UserAction(0, RESOLVE)]));
      after.Some? && !IsResolved(after) && SnoozeTime(after.value) == Some(100)
  {
    hide HistoryAt;
    assert SnoozeTime(Act(row, SNOOZE)) == Some(100);
  }

  // ----- A contact on the defaults list ----------------------------------------------------------

  const DISMISS_CONTACT := DefaultsAction(DismissDefaults(""))
  const REINSTATE_CONTACT := DefaultsAction(ReinstateDefaults)

  lemma DismissedContact() returns (row: Row)
    ensures HistoryAt(None, 0, [UserAction(0, DISMISS_CONTACT)]) == Some(row) && row == NewDefaultsRow(0, "")
    ensures Decided(row) && IsDefaultsRow(row) && !Truthy(row.result, ResolvedKey)
    ensures !FeedShows(row.result, 0, false, false)
  {
    assert [UserAction(0, DISMISS_CONTACT)][..0] == [];
    row := NewDefaultsRow(0, "");
  }

  /** Reinstating ends a dismissal without a restore: the row is in the feed, its mark stored as false. */
  lemma ReinstateEndsDismissal()
    ensures var after := HistoryAt(None, 0, [UserAction(0, DISMISS_CONTACT)] + [UserAction(0, REINSTATE_CONTACT)]);
      after.Some? && !Decided(after.value) && FeedShows(after.value.result, 0, false, false)
      && DismissedKey in after.value.result && after.value.result[DismissedKey] == Flag(false)
  {
    var row := DismissedContact();
    HistorySnoc(None, 0, [UserAction(0, DISMISS_CONTACT)], UserAction(0, REINSTATE_CONTACT));
    hide HistoryAt;
  }

  /** No run is needed to lose a resolution: one that commits while the contact is being reinstated is
      overwritten, and the row is in the feed. */
  lemma ReinstateLosesResolve()
    ensures var after := HistoryAt(None, 0,
        [UserAction(0, DISMISS_CONTACT)] + [Overlapped(ActionWrite(0, REINSTATE_CONTACT), [UserAction(0, RESOLVE)])]);
      after.Some? && !IsResolved(after) && FeedShows(after.value.result, 0, false, false)
  {
    var row := DismissedContact();
    var e := Overlapped(ActionWrite(0, REINSTATE_CONTACT), [UserAction(0, RESOLVE)]);
    HistorySnoc(None, 0, [UserAction(0, DISMISS_CONTACT)], e);
    hide HistoryAt;
    assert ChangeDefaults(row, ReinstateDefaults).result[DismissedKey] != row.result[DismissedKey];
  }
}
