/** What runs and user actions guarantee, over single runs and over whole histories. */
module AuditSafety {
  import opened Wrappers
  import opened Issues
  import opened AuditItems
  import opened TrappedRows
  import opened RowInvariant
  import opened AuditRuns

  /** Actionable apart from snoozing: no user end-state and not cleared. */
  predicate Visible(row: Row) {
    !Decided(row) && !Cleared(row)
  }

  // ----- Latest full run wins -------------------------------------------------------------------

  /** An id names a transaction, a contact or an account, not two of them. */
  ghost predicate OneSection(before: Option<Row>, d: nat, run: Run) {
    var document := Uuid(d) in run.txs || DocGroup(run, d) != [];
    var contact := d in run.contacts || ContactGroup(run, d) != [];
    var account := AccountGroup(run, d) != [] || (before.Some? && before.value.kind == AccountRow);
    !(document && contact) && !(document && account) && !(contact && account)
  }

  /** The row shows exactly this verdict and is back in the feed. */
  ghost predicate ShowsVerdict(after: Option<Row>, v: Verdict) {
    && after.Some? && Visible(after.value)
    && Shown(after.value) == v.shown && Hidden(after.value) == v.hidden && RuleIds(after.value.result) == v.ruleIds
    && !FeedSnoozed(after.value)
  }

  predicate FeedSnoozed(row: Row) {
    SnoozedUntilTsKey in row.result
  }

  /** The row has left the feed but keeps its content; a document without a row still has none. */
  ghost predicate ClearedFrom(before: Option<Row>, after: Option<Row>) {
    match before
    case None => after.None?
    case Some(row) =>
      && after.Some? && Cleared(after.value)
      && Shown(after.value) == Shown(row) && Hidden(after.value) == Hidden(row)
      && (Cleared(row) ==> after == before)
  }

  lemma PersistShows(before: Option<Row>, v: Verdict)
    requires before.Some? ==> !Decided(before.value)
    ensures ShowsVerdict(Some(Persist(before, v, None)), v)
  {
    ScoredReads(v.shown, v.hidden, v.ruleIds, v.info);
  }

  lemma ClearLeaves(before: Option<Row>, run: Run)
    requires before.Some? ==> !Decided(before.value)
    ensures ClearedFrom(before, ClearAt(before, true, run))
  {
    if before.Some? {
      ClearReads(before.value.result, run.batch, run.now);
    }
  }

  /** After a full run, for every id it looked at and no user had decided: the row is in the feed exactly
      when this run flagged it, showing exactly this run's items that are not superseded; otherwise it is
      cleared. A decided row, and the row of an id the run did not look at, is untouched. */
  lemma LatestFullRunWins(before: Option<Row>, d: nat, run: Run)
    requires OneSection(before, d, run)
    ensures var after := FullAt(before, d, run);
      if before.Some? && Decided(before.value) then after == before
      else if Uuid(d) in run.txs then
        if DocGroup(run, d) != [] then ShowsVerdict(after, DocVerdict(DocGroup(run, d), run.txs[Uuid(d)], run.batch))
        else ClearedFrom(before, after)
      else if d in run.contacts then
        if ContactGroup(run, d) != [] then ShowsVerdict(after, ContactVerdict(ContactGroup(run, d), run.batch))
        else ClearedFrom(before, after)
      else if AccountGroup(run, d) != [] then ShowsVerdict(after, AccountVerdict(AccountGroup(run, d), run.batch))
      else if before.Some? && before.value.kind == AccountRow && run.accruals.Some? then ClearedFrom(before, after)
      else ContactGroup(run, d) == [] ==> after == before
  {
    if before.Some? && Decided(before.value) {
      RunsLeaveDecided(before.value, d, run);
    } else {
      hide Decided, DocGroup, ContactGroup, AccountGroup;
      hide DocVerdict, ContactVerdict, AccountVerdict, ShowsVerdict, ClearedFrom, Clear;
      ClearLeaves(before, run);
      if DocGroup(run, d) != [] && Uuid(d) in run.txs {
        PersistShows(before, DocVerdict(DocGroup(run, d), run.txs[Uuid(d)], run.batch));
        KindOfNew(before, DocVerdict(DocGroup(run, d), run.txs[Uuid(d)], run.batch));
      } else if ContactGroup(run, d) != [] {
        PersistShows(before, ContactVerdict(ContactGroup(run, d), run.batch));
        KindOfNew(before, ContactVerdict(ContactGroup(run, d), run.batch));
      } else if AccountGroup(run, d) != [] {
        PersistShows(before, AccountVerdict(AccountGroup(run, d), run.batch));
      }
    }
  }

  lemma KindOfNew(before: Option<Row>, v: Verdict)
    ensures Persist(before, v, None).kind == if before.Some? then before.value.kind else v.kind
  {}

  /** No run ever touches a row the user has decided. */
  lemma RunsLeaveDecided(row: Row, d: nat, run: Run)
    requires Decided(row)
    ensures FullAt(Some(row), d, run) == Some(row)
    ensures DuplicatesAt(Some(row), d, run) == Some(row)
  {
    hide DocGroup, ContactGroup, AccountGroup, Decided, DocVerdict, ContactVerdict, AccountVerdict;
  }

  /** Nor does any single stage of one. */
  lemma StagesLeaveDecided(row: Row, d: nat, run: Run, stage: Stage)
    requires Decided(row)
    ensures StageAt(Some(row), d, run, stage) == Some(row)
  {
    hide DocGroup, ContactGroup, AccountGroup, Decided, DocVerdict, ContactVerdict, AccountVerdict;
  }

  // ----- Duplicates-only runs -------------------------------------------------------------------

  function Rest(row: Row): seq<Item> {
    Except(Shown(row), DUPLICATES)
  }

  function Copies(row: Row): seq<Item> {
    Only(Shown(row), DUPLICATES)
  }

  /** What a scoped merge shows. */
  lemma MergeShows(row: Row, group: seq<Item>, tx: Tx, batch: string)
    requires !Decided(row) && Plain(group) && forall f :: f in group ==> IsDuplicate(f.issue)
    ensures var after := Persist(Some(row), DocVerdict(group, tx, batch), Some(DUPLICATES));
      && Visible(after) && Rest(after) == Rest(row) && Copies(after) == group
      && Hidden(after) == Except(Hidden(row), DUPLICATES)
  {
    AllActive(group);
    hide IssueTypes, JoinMessages;
    var shown := Rest(row) + group;
    ScoredReads(shown, Except(Hidden(row), DUPLICATES) + [], IssueTypes(shown), Info(batch, tx.details));
    assert Except(Hidden(row), DUPLICATES) + [] == Except(Hidden(row), DUPLICATES);
    ExceptTwice(Shown(row), DUPLICATES);
    ExceptAll(group, DUPLICATES);
    ExceptAppend(Rest(row), group, DUPLICATES);
    OnlyAppend(Rest(row), group, DUPLICATES);
    assert Rest(row) + [] == Rest(row);
  }

  /** What stripping a stale row shows. */
  lemma StripShows(row: Row, batch: string, now: string)
    requires RowOk(row) && Visible(row)
    ensures var after := StripDuplicates(row, batch, now);
      && (Copies(row) == [] ==> after == row)
      && (Copies(row) != [] && Rest(row) != [] ==>
            Visible(after) && Rest(after) == Rest(row) && Copies(after) == [] && Hidden(after) == Hidden(row))
      && (Copies(row) != [] && Rest(row) == [] ==> Cleared(after) && Shown(after) == Shown(row))
  {
    IdsTellDuplicates(row);
    RelistShows(row);
    ClearReads(row.result, batch, now);
    hide RowOk, TypesExcept, Rewritten, MarkCleared, Except, Only;
  }

  lemma RelistShows(row: Row)
    requires Visible(row)
    ensures var after := Row(row.kind, Rewritten(row.result, Rest(row), TypesExcept(RuleIds(row.result), DUPLICATES)));
      Visible(after) && Rest(after) == Rest(row) && Copies(after) == [] && Hidden(after) == Hidden(row)
  {
    RewrittenReads(row.result, Rest(row), TypesExcept(RuleIds(row.result), DUPLICATES));
    ExceptTwice(Shown(row), DUPLICATES);
    hide TypesExcept, JoinMessages, Rewritten, Except, Only;
  }

  /** A duplicates-only run does not interfere with the other checks. On a row that was not cleared
      before it: if the row stays visible, its other items are the same in the same order and, when the
      document was re-checked, its duplicate items are exactly this run's; a row with no duplicate before
      or in the run is identical; and a row it clears was showing duplicates alone and hiding nothing. */
  lemma DuplicatesRunKeepsRest(row: Row, d: nat, run: Run)
    requires RowOk(row) && !Cleared(row) && ValidDuplicatesRun(run)
    ensures var after := DuplicatesAt(Some(row), d, run);
      && after.Some?
      && (Visible(after.value) ==>
            && Rest(after.value) == Rest(row) && Hidden(after.value) == Hidden(row)
            && (Uuid(d) in run.txs ==> Copies(after.value) == DocGroup(run, d)))
      && (Copies(row) == [] && DocGroup(run, d) == [] ==> after == Some(row))
      && (Cleared(after.value) ==> Rest(row) == [] && Hidden(row) == [] && DocGroup(run, d) == [])
  {
    if Decided(row) {
      RunsLeaveDecided(row, d, run);
    } else {
      ExplainedMeansUntouched(row);
      DuplicatesOnlyGroup(run, d);
      hide RowOk, DocGroup, Persist, StripDuplicates, Rest, Copies, DocVerdict, ValidDuplicatesRun, Decided, Cleared;
      if DocGroup(run, d) != [] && Uuid(d) in run.txs {
        MergeShows(row, DocGroup(run, d), run.txs[Uuid(d)], run.batch) by {
          NoneTagged(DocGroup(run, d));
        }
      } else {
        StripShows(row, run.batch, run.now);
      }
    }
  }

  lemma NoneTagged(items: seq<Item>)
    requires Superseded(items) == []
    ensures Plain(items)
  {
    forall f | f in items
      ensures f.supersededBy.None?
    {
      assert f.supersededBy.Some? ==> f in Superseded(items);
    }
  }

  lemma ExplainedMeansUntouched(row: Row)
    requires RowOk(row)
    ensures Except(Hidden(row), DUPLICATES) == Hidden(row)
    ensures Rest(row) == [] ==> Hidden(row) == []
  {
    ExplainedWithoutDuplicates(Hidden(row), Shown(row), []);
    if Hidden(row) != [] {
      ExplanationStays(row, Hidden(row)[0]);
    }
  }

  lemma ExplanationStays(row: Row, f: Item)
    requires RowOk(row) && f in Hidden(row)
    ensures Rest(row) != []
  {
    assert ExplainedBy(f, Shown(row));
    var g :| g in Shown(row) && g.issue == f.supersededBy.value;
    assert g in Rest(row);
  }

  /** On a cleared row the claim fails, exactly when the run flags the document: that brings the whole row
      back, with the items an earlier full run had cleared. Otherwise a cleared row is left identical. */
  lemma ScopedMergeRevives(row: Row, d: nat, run: Run)
    requires RowOk(row) && Cleared(row) && !Decided(row) && ValidDuplicatesRun(run)
    ensures var after := DuplicatesAt(Some(row), d, run);
      if Uuid(d) in run.txs && DocGroup(run, d) != [] then
        after.Some? && Visible(after.value) && Rest(after.value) == Rest(row) && Copies(after.value) == DocGroup(run, d)
      else after == Some(row)
  {
    hide DocGroup, Persist, Rest, Copies, DocVerdict, ValidDuplicatesRun, Decided, Cleared, RowOk;
    if Uuid(d) in run.txs && DocGroup(run, d) != [] {
      DuplicatesOnlyGroup(run, d);
      NoneTagged(DocGroup(run, d));
      MergeShows(row, DocGroup(run, d), run.txs[Uuid(d)], run.batch);
    }
  }

  // ----- Whole histories ------------------------------------------------------------------------

  /** Every row that any history produces is consistent. */
  lemma ReachableRowsConsistent(d: nat, events: seq<Event>)
    requires ValidHistory(events)
    ensures MaybeOk(HistoryAt(None, d, events))
  {
    HistoryKeepsRow(None, d, events);
  }

  /** On every reachable row, at every time, the feed and the statistics agree. */
  lemma FeedAndStatsAlwaysAgree(d: nat, events: seq<Event>, now: int)
    requires ValidHistory(events) && HistoryAt(None, d, events).Some?
    ensures var r := HistoryAt(None, d, events).value.result;
      FeedShows(r, now, false, false) <==> StatsOpen(r, now)
  {
    ReachableRowsConsistent(d, events);
    hide HistoryAt;
    FeedMatchesStats(HistoryAt(None, d, events).value, now);
  }

  predicate IsResolved(row: Option<Row>) {
    row.Some? && Truthy(row.value.result, ResolvedKey)
  }

  lemma ActionsKeepResolved(row: Row, a: Action)
    requires Truthy(row.result, ResolvedKey)
    ensures Truthy(Act(row, a).result, ResolvedKey)
  {}

  lemma ResolvedIsDecided(row: Row)
    requires Truthy(row.result, ResolvedKey)
    ensures Decided(row)
  {}

  lemma WritesKeepResolved(before: Option<Row>, d: nat, w: Write)
    requires IsResolved(before)
    ensures IsResolved(WriteAt(before, d, w))
  {
    ResolvedIsDecided(before.value);
    hide StageAt, Act, Truthy, Decided;
    match w
    case StageWrite(run, stage) => StagesLeaveDecided(before.value, d, run, stage);
    case ActionWrite(doc, a) => ActionsKeepResolved(before.value, a);
  }

  lemma {:induction false} StepKeepsResolved(before: Option<Row>, d: nat, e: Event)
    requires IsResolved(before)
    ensures IsResolved(StepAt(before, d, e))
    decreases e
  {
    hide StageAt, Act, Truthy, WriteAt;
    match e
    case RunStage(run, stage) => StagesKeepResolved(before, d, run, stage);
    case UserAction(doc, a) => ActionsKeepResolved(before.value, a);
    case Overlapped(w, between) =>
      WritesKeepResolved(before, d, w);
      ResolvedForever(before, d, between);
  }

  lemma StagesKeepResolved(before: Option<Row>, d: nat, run: Run, stage: Stage)
    requires IsResolved(before)
    ensures IsResolved(StageAt(before, d, run, stage))
  {
    WritesKeepResolved(before, d, StageWrite(run, stage));
    hide StageAt, Truthy;
  }

  /** Once resolved, a row stays resolved under every interleaving of run stages and user actions. */
  lemma {:induction false} ResolvedForever(before: Option<Row>, d: nat, events: seq<Event>)
    requires IsResolved(before)
    ensures IsResolved(HistoryAt(before, d, events))
    decreases events
  {
    hide StepAt, IsResolved;
    if events != [] {
      ResolvedForever(before, d, events[..|events| - 1]);
      StepKeepsResolved(HistoryAt(before, d, events[..|events| - 1]), d, events[|events| - 1]);
    }
  }

  /** Restoring a row, or putting a contact back on the defaults list, can undo a decision. */
  predicate Undoes(a: Action) {
    a.RestoreAction? || a == DefaultsAction(ReinstateDefaults)
  }

  /** Exactly when one action undoes the decision on a row: a restore of one that is not resolved, or a
      reinstatement of a contact-defaults row that is dismissed and nothing else. */
  lemma ActionUndoesIff(row: Row, a: Action)
    requires Decided(row)
    ensures !Decided(Act(row, a)) <==>
      && !Truthy(row.result, ResolvedKey)
      && (a.RestoreAction?
          || (a == DefaultsAction(ReinstateDefaults) && IsDefaultsRow(row) && !Truthy(row.result, MarkedOkKey)))
  {
    hide IsDefaultsRow;
  }

  lemma ActionsKeepDecision(row: Row, a: Action)
    requires Decided(row) && !Undoes(a)
    ensures Decided(Act(row, a))
  {
    ActionUndoesIff(row, a);
    hide Decided, Act;
  }

  ghost predicate NothingUndone(actions: set<Action>) {
    forall a :: a in actions ==> !Undoes(a)
  }

  lemma WritesKeepDecision(row: Row, d: nat, w: Write)
    requires Decided(row) && NothingUndone(ActionsOn(Overlapped(w, []), d))
    ensures WriteAt(Some(row), d, w).Some? && Decided(WriteAt(Some(row), d, w).value)
    ensures ActionsOn(Overlapped(w, []), d) == {} ==> WriteAt(Some(row), d, w) == Some(row)
  {
    hide StageAt, Act, Decided, Undoes;
    match w
    case StageWrite(run, stage) => StagesLeaveDecided(row, d, run, stage);
    case ActionWrite(doc, a) =>
      if doc == d {
        ActionsKeepDecision(row, a);
      }
  }

  lemma {:induction false} StepKeepsDecision(row: Row, d: nat, e: Event)
    requires Decided(row) && NothingUndone(ActionsOn(e, d))
    ensures StepAt(Some(row), d, e).Some? && Decided(StepAt(Some(row), d, e).value)
    ensures ActionsOn(e, d) == {} ==> StepAt(Some(row), d, e) == Some(row)
    decreases e
  {
    hide StageAt, Act, Decided, WriteAt, Undoes;
    match e
    case RunStage(run, stage) => StagesLeaveDecided(row, d, run, stage);
    case UserAction(doc, a) =>
      if doc == d {
        ActionsKeepDecision(row, a);
      }
    case Overlapped(w, between) =>
      WritesKeepDecision(row, d, w);
      DecisionLastsUntilUndone(row, d, between);
  }

  /** A decision lasts until it is undone: while no action on the row restores or reinstates it, it stays
      decided, and while the user leaves the row alone it stays identical, whatever runs happen. */
  lemma {:induction false} DecisionLastsUntilUndone(row: Row, d: nat, events: seq<Event>)
    requires Decided(row) && NothingUndone(ActionsIn(events, d))
    ensures HistoryAt(Some(row), d, events).Some? && Decided(HistoryAt(Some(row), d, events).value)
    ensures ActionsIn(events, d) == {} ==> HistoryAt(Some(row), d, events) == Some(row)
    decreases events
  {
    hide StepAt, Decided, ActionsOn, Undoes;
    if events != [] {
      DecisionLastsUntilUndone(row, d, events[..|events| - 1]);
      StepKeepsDecision(HistoryAt(Some(row), d, events[..|events| - 1]).value, d, events[|events| - 1]);
    }
  }

  /** A stage that stores flags of the id: as a known transaction, as a contact or as an account. */
  ghost predicate Stores(run: Run, stage: Stage, d: nat) {
    if stage.StoreDocuments? || stage.MergeDuplicates? then DocGroup(run, d) != [] && Uuid(d) in run.txs
    else if stage.StoreContacts? then ContactGroup(run, d) != []
    else stage.StoreAccounts? && AccountGroup(run, d) != []
  }

  ghost predicate Flags(e: Event, d: nat)
    decreases e
  {
    match e
    case RunStage(run, stage) => Stores(run, stage, d)
    case UserAction(_, _) => false
    case Overlapped(w, between) => (w.StageWrite? && Stores(w.run, w.stage, d)) || FlagsIn(between, d)
  }

  ghost predicate FlagsIn(events: seq<Event>, d: nat)
    decreases events
  {
    events != [] && (FlagsIn(events[..|events| - 1], d) || Flags(events[|events| - 1], d))
  }

  lemma ActionsKeepCleared(row: Row, a: Action)
    requires Cleared(row)
    ensures Cleared(Act(row, a))
  {}

  lemma StagesKeepCleared(row: Row, d: nat, run: Run, stage: Stage)
    requires Cleared(row) && !Stores(run, stage, d)
    ensures StageAt(Some(row), d, run, stage) == Some(row)
  {
    hide DocGroup, ContactGroup, AccountGroup, Cleared;
  }

  ghost predicate StillCleared(row: Option<Row>) {
    row.Some? && Cleared(row.value)
  }

  /** Only a run that flags the document can bring a cleared row back. */
  lemma {:induction false} ClearedUntilFlagged(row: Row, d: nat, e: Event)
    requires Cleared(row) && !Flags(e, d)
    ensures StillCleared(StepAt(Some(row), d, e))
    decreases e
  {
    hide StageAt, Stores, Act, Cleared;
    match e
    case RunStage(run, stage) => StagesKeepCleared(row, d, run, stage);
    case UserAction(doc, a) => ActionsKeepCleared(row, a);
    case Overlapped(w, between) =>
      ClearedWhileUnflagged(row, d, between);
      if w.StageWrite? {
        StagesKeepCleared(row, d, w.run, w.stage);
      } else {
        ActionsKeepCleared(row, w.action);
      }
  }

  lemma {:induction false} ClearedWhileUnflagged(row: Row, d: nat, events: seq<Event>)
    requires Cleared(row) && !FlagsIn(events, d)
    ensures StillCleared(HistoryAt(Some(row), d, events))
    decreases events
  {
    hide Flags, StepAt, Cleared;
    if events != [] {
      ClearedWhileUnflagged(row, d, events[..|events| - 1]);
      ClearedUntilFlagged(HistoryAt(Some(row), d, events[..|events| - 1]).value, d, events[|events| - 1]);
    }
  }

  // ----- Restore --------------------------------------------------------------------------------

  predicate Hides(a: Action) {
    !a.ResolveAction? && !a.RestoreAction?
  }

  lemma HidingWritesHideKeys(row: Row, a: Action)
    requires Hides(a)
    ensures Act(row, a).kind == row.kind && Act(row, a).result - HIDE_KEYS == row.result - HIDE_KEYS
  {
    var r, q := row.result, Act(row, a).result;
    assert forall k :: k !in HIDE_KEYS ==> (k in q <==> k in r) && (k in r ==> q[k] == r[k]);
  }

  lemma {:induction false} HidingKeepsRest(row: Row, actions: seq<Action>)
    requires forall i :: 0 <= i < |actions| ==> Hides(actions[i])
    ensures ActAll(row, actions).kind == row.kind && ActAll(row, actions).result - HIDE_KEYS == row.result - HIDE_KEYS
  {
    hide Act;
    if actions != [] {
      HidingKeepsRest(row, actions[..|actions| - 1]);
      HidingWritesHideKeys(ActAll(row, actions[..|actions| - 1]), actions[|actions| - 1]);
    }
  }

  /** `restore` after any sequence of dismissing, reinstating, accepting and snoozing gives back exactly the row
      before them if and only if that row carried no hide keys. */
  lemma {:induction false} RestoreUndoesHiding(row: Row, actions: seq<Action>)
    requires forall i :: 0 <= i < |actions| ==> Hides(actions[i])
    ensures Restore(ActAll(row, actions)) == row <==> row.result.Keys !! HIDE_KEYS
    ensures Restore(ActAll(row, actions)) == Restore(row)
  {
    HidingKeepsRest(row, actions);
    hide ActAll, HIDE_KEYS;
    if row.result.Keys !! HIDE_KEYS {
      assert row.result - HIDE_KEYS == row.result;
    }
    assert (row.result - HIDE_KEYS).Keys == row.result.Keys - HIDE_KEYS;
  }
}
