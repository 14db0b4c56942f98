/** What becomes of a decision that commits while something else, having read the row before any lock, is about
    to write it back. */
module Overlaps {
  import opened Wrappers
  import opened Issues
  import opened TrappedRows
  import opened AuditRuns
  import opened AuditSafety

  // ----- What a stage will rewrite ---------------------------------------------------------------

  /** The run that last scored the row. */
  function RecordedBatch(row: Row): Option<string> {
    if InfoKey in row.result && row.result[InfoKey].InfoOf? then Some(row.result[InfoKey].info.batch) else None
  }

  predicate ShowsCopy(row: Row) {
    exists t :: t in RuleIds(row.result) && t in DUPLICATES
  }

  /** Which rows a stage rewrites, told from the row it reads and the inputs of the run. */
  ghost predicate Rewrites(row: Row, d: nat, run: Run, stage: Stage) {
    && !Decided(row)
    && match stage
       case ClearAccounts => StaleAccount(Some(row), d, run) && !Cleared(row)
       case ClearStale => Stale(run, d) && !Cleared(row)
       case StripStale => Evaluated(run, d) && DocGroup(run, d) == [] && !Cleared(row) && ShowsCopy(row)
       case _ => Stores(run, stage, d)
  }

  lemma ClearChangesIff(row: Row, batch: string, now: string)
    ensures Clear(row, batch, now) != row <==> !Decided(row) && !Cleared(row)
  {
    hide Decided;
    assert !Cleared(row) ==> MarkCleared(row.result, batch, now)[AutoClearedKey] == Flag(true);
  }

  lemma StripChangesIff(row: Row, batch: string, now: string)
    ensures StripDuplicates(row, batch, now) != row <==> !Decided(row) && !Cleared(row) && ShowsCopy(row)
  {
    var ids := RuleIds(row.result);
    KeptAllTypes(ids, DUPLICATES);
    hide Decided, JoinMessages, Except, TypesExcept;
    if !Decided(row) && !Cleared(row) && ShowsCopy(row) {
      var after := StripDuplicates(row, batch, now).result;
      if TypesExcept(ids, DUPLICATES) == [] {
        assert after[AutoClearedKey] == Flag(true);
      } else {
        assert after[RuleIdsKey] == TypeList(TypesExcept(ids, DUPLICATES));
      }
    }
  }

  lemma ScoreChanges(row: Row, v: Verdict, evaluated: Option<set<IssueType>>)
    requires RecordedBatch(row) != Some(v.info.batch)
    ensures Persist(Some(row), v, evaluated) != row <==> !Decided(row)
  {
    hide Decided, JoinMessages, Except, IssueTypes;
    var after := Persist(Some(row), v, evaluated).result;
    assert !Decided(row) ==> InfoKey in after && after[InfoKey] == InfoOf(v.info);
  }

  lemma ScoresChangeIff(row: Row, batch: string)
    requires RecordedBatch(row) != Some(batch)
    ensures forall v: Verdict, evaluated ::
      v.info.batch == batch ==> (Persist(Some(row), v, evaluated) != row <==> !Decided(row))
  {
    forall v: Verdict, evaluated | v.info.batch == batch
      ensures Persist(Some(row), v, evaluated) != row <==> !Decided(row)
    {
      ScoreChanges(row, v, evaluated);
    }
  }

  /** A row that the stage stores flags of was last scored by another run. */
  ghost predicate ScoredBefore(row: Row, d: nat, run: Run, stage: Stage) {
    Stores(run, stage, d) ==> RecordedBatch(row) != Some(run.batch)
  }

  /** A run rewrites exactly those rows. */
  lemma RewritesIff(row: Row, d: nat, run: Run, stage: Stage)
    requires ScoredBefore(row, d, run, stage)
    ensures StageAt(Some(row), d, run, stage) != Some(row) <==> Rewrites(row, d, run, stage)
  {
    ClearChangesIff(row, run.batch, run.now);
    StripChangesIff(row, run.batch, run.now);
    if Stores(run, stage, d) {
      ScoresChangeIff(row, run.batch);
    }
    hide Decided, Cleared, Persist, Clear, StripDuplicates;
    hide DocGroup, ContactGroup, AccountGroup, RecordedBatch, ShowsCopy;
  }

  // ----- What a user action will rewrite ----------------------------------------------------------

  predicate Holds(r: Result, k: Key, v: Json) {
    k in r && r[k] == v
  }

  /** Nothing to note, or noted already. */
  predicate HoldsNote(r: Result, k: Key, text: string) {
    text == "" || Holds(r, k, Text(text))
  }

  /** The row says already all that the action would write, and nothing that it would remove. */
  predicate SaysAlready(row: Row, a: Action) {
    var r := row.result;
    match a
    case ResolveAction(notes, user, response) =>
      && Holds(r, ResolvedKey, Flag(true))
      && HoldsNote(r, ResolutionNotesKey, notes) && HoldsNote(r, ResolvedByKey, user)
      && (response.Some? ==> Holds(r, XeroResponseKey, Text(response.value)))
    case DismissAction(reason, user) =>
      && Holds(r, DismissedKey, Flag(true))
      && HoldsNote(r, DismissalReasonKey, reason) && HoldsNote(r, DismissedByKey, user)
    case AcceptAction(reason, user) =>
      && Holds(r, MarkedOkKey, Flag(true))
      && HoldsNote(r, MarkOkReasonKey, reason) && HoldsNote(r, MarkedOkByKey, user)
    case SnoozeAction(until, iso, reason, user) =>
      && Holds(r, SnoozedUntilTsKey, Number(until)) && Holds(r, SnoozedUntilKey, Text(iso))
      && HoldsNote(r, SnoozeReasonKey, reason) && HoldsNote(r, SnoozedByKey, user)
    case RestoreAction => r.Keys !! HIDE_KEYS
    case DefaultsAction(DismissDefaults(reason)) =>
      IsDefaultsRow(row) ==> Holds(r, DismissedKey, Flag(true)) && HoldsNote(r, DismissalReasonKey, reason)
    case DefaultsAction(ReinstateDefaults) =>
      IsDefaultsRow(row) ==> Holds(r, DismissedKey, Flag(false))
  }

  lemma NotedReads(r: Result, k: Key, text: string, j: Key)
    ensures HoldsNote(Noted(r, k, text), k, text)
    ensures HoldsNote(r, k, text) ==> Noted(r, k, text) == r
    ensures j != k ==> (j in Noted(r, k, text) <==> j in r) && (j in r ==> Noted(r, k, text)[j] == r[j])
  {}

  /** A mark with two notes, under three different keys. */
  lemma MarkChangesIff(r: Result, k: Key, v: Json, k1: Key, note1: string, k2: Key, note2: string)
    requires k != k1 && k != k2 && k1 != k2
    ensures Noted(Noted(r[k := v], k1, note1), k2, note2) != r <==>
      !(Holds(r, k, v) && HoldsNote(r, k1, note1) && HoldsNote(r, k2, note2))
  {
    var q := r[k := v];
    NotedReads(q, k1, note1, k);
    NotedReads(Noted(q, k1, note1), k2, note2, k);
    NotedReads(Noted(q, k1, note1), k2, note2, k1);
    assert Holds(q, k, v);
    if Holds(r, k, v) {
      assert q == r;
    }
    hide Noted;
  }

  /** One more key written after others. */
  lemma EntryChangesIff(r: Result, q: Result, k: Key, v: Json)
    requires k in q <==> k in r
    requires k in r ==> q[k] == r[k]
    ensures q[k := v] != r <==> !(q == r && Holds(r, k, v))
  {
    var p := q[k := v];
    assert Holds(p, k, v);
    if q == r && Holds(r, k, v) {
      assert p == r;
    } else if p == r {
      assert q == r;
    }
  }

  lemma ResolveChangesIff(row: Row, notes: string, user: string, response: Option<string>)
    ensures Resolve(row, notes, user, response) != row <==>
      !SaysAlready(row, ResolveAction(notes, user, response))
  {
    var r := row.result;
    MarkChangesIff(r, ResolvedKey, Flag(true), ResolutionNotesKey, notes, ResolvedByKey, user);
    if response.Some? {
      var noted := Noted(r[ResolvedKey := Flag(true)], ResolutionNotesKey, notes);
      NotedReads(r[ResolvedKey := Flag(true)], ResolutionNotesKey, notes, XeroResponseKey);
      NotedReads(noted, ResolvedByKey, user, XeroResponseKey);
      hide Noted, Holds, HoldsNote;
      var q := Noted(noted, ResolvedByKey, user);
      EntryChangesIff(r, q, XeroResponseKey, Text(response.value));
    }
  }

  lemma SnoozeChangesIff(row: Row, until: int, iso: string, reason: string, user: string)
    ensures Snooze(row, until, iso, reason, user) != row <==>
      !SaysAlready(row, SnoozeAction(until, iso, reason, user))
  {
    var r := row.result;
    var q := r[SnoozedUntilTsKey := Number(until)];
    MarkChangesIff(q, SnoozedUntilKey, Text(iso), SnoozeReasonKey, reason, SnoozedByKey, user);
    var p := Snooze(row, until, iso, reason, user).result;
    assert Holds(p, SnoozedUntilTsKey, Number(until));
    if Holds(r, SnoozedUntilTsKey, Number(until)) {
      assert q == r;
    }
  }

  lemma RestoreChangesIff(row: Row)
    ensures Restore(row) != row <==> !(row.result.Keys !! HIDE_KEYS)
  {
    hide HIDE_KEYS;
    var r := row.result;
    assert (r - HIDE_KEYS).Keys == r.Keys - HIDE_KEYS;
    if r.Keys !! HIDE_KEYS {
      assert r - HIDE_KEYS == r;
    }
  }

  /** A user action leaves the row as it is exactly when the row says it all already. */
  lemma ActionChangesIff(row: Row, a: Action)
    ensures Act(row, a) != row <==> !SaysAlready(row, a)
  {
    var r := row.result;
    hide IsDefaultsRow, Restore, HIDE_KEYS, Noted, Resolve, Snooze;
    match a
    case ResolveAction(notes, user, response) => ResolveChangesIff(row, notes, user, response);
    case DismissAction(reason, user) =>
      MarkChangesIff(r, DismissedKey, Flag(true), DismissalReasonKey, reason, DismissedByKey, user);
    case AcceptAction(reason, user) =>
      MarkChangesIff(r, MarkedOkKey, Flag(true), MarkOkReasonKey, reason, MarkedOkByKey, user);
    case SnoozeAction(until, iso, reason, user) => SnoozeChangesIff(row, until, iso, reason, user);
    case RestoreAction => RestoreChangesIff(row);
    case DefaultsAction(change) => DefaultsChangeIff(row, change);
  }

  lemma DefaultsChangeIff(row: Row, change: DefaultsChange)
    ensures ChangeDefaults(row, change) != row <==> !SaysAlready(row, DefaultsAction(change))
  {
    hide IsDefaultsRow;
    var r := row.result;
    match change
    case DismissDefaults(reason) =>
      MarkChangesIff(r, DismissedKey, Flag(true), DismissalReasonKey, reason, DismissedByKey, "");
    case ReinstateDefaults =>
      MarkChangesIff(r, DismissedKey, Flag(false), DismissalReasonKey, "", DismissedByKey, "");
  }

  ghost predicate Overwrites(row: Row, d: nat, w: Write) {
    match w
    case StageWrite(run, stage) => Rewrites(row, d, run, stage)
    case ActionWrite(doc, a) => doc == d && !SaysAlready(row, a)
  }

  ghost predicate NewRun(row: Row, d: nat, w: Write) {
    w.StageWrite? ==> ScoredBefore(row, d, w.run, w.stage)
  }

  lemma OverwritesIff(row: Row, d: nat, w: Write)
    requires NewRun(row, d, w)
    ensures WriteAt(Some(row), d, w) != Some(row) <==> Overwrites(row, d, w)
  {
    hide StageAt, Rewrites, SaysAlready, Act, ScoredBefore;
    match w
    case StageWrite(run, stage) => RewritesIff(row, d, run, stage);
    case ActionWrite(doc, a) => ActionChangesIff(row, a);
  }

  // ----- Decisions in between --------------------------------------------------------------------

  lemma ScoresUndecided(before: Option<Row>, v: Verdict, evaluated: Option<set<IssueType>>)
    requires before.Some? ==> !Decided(before.value)
    ensures !Decided(Persist(before, v, evaluated))
  {
    hide JoinMessages, IssueTypes, Except;
  }

  lemma ReconcilesUndecided(row: Row, batch: string, now: string)
    requires !Decided(row)
    ensures !Decided(Clear(row, batch, now)) && !Decided(StripDuplicates(row, batch, now))
  {
    hide JoinMessages, Except, TypesExcept, RuleIds, Shown;
  }

  lemma StagesNeverDecide(row: Row, d: nat, run: Run, stage: Stage)
    requires !Decided(row)
    ensures StageAt(Some(row), d, run, stage).Some? && !Decided(StageAt(Some(row), d, run, stage).value)
  {
    hide DocGroup, ContactGroup, AccountGroup, Persist, Clear, StripDuplicates, Decided;
    ReconcilesUndecided(row, run.batch, run.now);
    forall v, evaluated
      ensures !Decided(Persist(Some(row), v, evaluated))
    {
      ScoresUndecided(Some(row), v, evaluated);
    }
  }

  /** A write that decides the row itself. */
  predicate Decides(row: Row, d: nat, w: Write) {
    && w.ActionWrite? && w.doc == d
    && match w.action
       case ResolveAction(_, _, _) => true
       case DismissAction(_, _) => true
       case AcceptAction(_, _) => true
       case DefaultsAction(DismissDefaults(_)) => IsDefaultsRow(row)
       case _ => false
  }

  lemma ActionDecidesIff(row: Row, d: nat, a: Action)
    requires !Decided(row)
    ensures Decided(Act(row, a)) <==> Decides(row, d, ActionWrite(d, a))
  {
    hide IsDefaultsRow;
  }

  lemma WriteDecidesIff(row: Row, d: nat, w: Write)
    requires !Decided(row)
    ensures WriteAt(Some(row), d, w).Some? && (Decided(WriteAt(Some(row), d, w).value) <==> Decides(row, d, w))
  {
    hide Decided, StageAt, Act;
    match w
    case StageWrite(run, stage) => StagesNeverDecide(row, d, run, stage);
    case ActionWrite(doc, a) => ActionDecidesIff(row, d, a);
  }

  /** A decision that commits after a stage or another action has read the row, and before that one writes it
      back, survives exactly when the row is not one that it rewrites. Otherwise the row is decided only if
      the write itself decides it. */
  lemma OverlapKeepsDecisionIff(row: Row, d: nat, w: Write, between: seq<Event>)
    requires !Decided(row) && NewRun(row, d, w)
    requires HistoryAt(Some(row), d, between).Some? && Decided(HistoryAt(Some(row), d, between).value)
    ensures var after := StepAt(Some(row), d, Overlapped(w, between));
      && after.Some? && (Decided(after.value) <==> !Overwrites(row, d, w) || Decides(row, d, w))
      && (!Overwrites(row, d, w) ==> after == HistoryAt(Some(row), d, between))
  {
    WriteDecidesIff(row, d, w);
    OverwritesIff(row, d, w);
    hide WriteAt, Decided, Overwrites, Decides, HistoryAt, NewRun;
  }

  predicate Resolves(d: nat, w: Write) {
    w.ActionWrite? && w.doc == d && w.action.ResolveAction?
  }

  lemma ActionResolvesIff(row: Row, a: Action)
    requires !Truthy(row.result, ResolvedKey)
    ensures Truthy(Act(row, a).result, ResolvedKey) <==> a.ResolveAction?
  {
    hide IsDefaultsRow;
  }

  lemma WriteResolvesIff(row: Row, d: nat, w: Write)
    requires !Truthy(row.result, ResolvedKey)
    ensures WriteAt(Some(row), d, w).Some?
    ensures WriteAt(Some(row), d, w) != Some(row) ==>
      (Truthy(WriteAt(Some(row), d, w).value.result, ResolvedKey) <==> Resolves(d, w))
  {
    hide StageAt, Act;
    match w
    case ActionWrite(doc, a) => ActionResolvesIff(row, a);
    case StageWrite(run, stage) =>
      if Decided(row) {
        StagesLeaveDecided(row, d, run, stage);
      } else {
        StagesNeverDecide(row, d, run, stage);
      }
  }

  /** A resolution that commits in between, while a stage or an action is about to write the row back, survives
      exactly when that write does not change the row it read. Otherwise the row is resolved only if the
      write is a resolution too. */
  lemma OverlapKeepsResolutionIff(row: Row, d: nat, w: Write, between: seq<Event>)
    requires NewRun(row, d, w) && !IsResolved(Some(row)) && IsResolved(HistoryAt(Some(row), d, between))
    ensures var after := StepAt(Some(row), d, Overlapped(w, between));
      && (IsResolved(after) <==> !Overwrites(row, d, w) || Resolves(d, w))
      && (!Overwrites(row, d, w) ==> after == HistoryAt(Some(row), d, between))
  {
    WriteResolvesIff(row, d, w);
    OverwritesIff(row, d, w);
    hide WriteAt, Truthy, Overwrites, HistoryAt, NewRun, Resolves;
  }
}
