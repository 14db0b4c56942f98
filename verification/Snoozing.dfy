/** How long a snooze lasts: what ends it, over single events and over whole histories. */
module Snoozing {
  import opened Wrappers
  import opened TrappedRows
  import opened AuditRuns
  import opened AuditSafety

  function SnoozeTime(row: Row): Option<int> {
    if SnoozedUntilTsKey in row.result && row.result[SnoozedUntilTsKey].Number?
    then Some(row.result[SnoozedUntilTsKey].n)
    else None
  }

  /** Some action of the history snoozes the row anew. */
  ghost predicate SnoozesAgain(actions: set<Action>) {
    exists a :: a in actions && a.SnoozeAction?
  }

  ghost predicate StoresOrRestores(w: Write, d: nat) {
    match w
    case StageWrite(run, stage) => Stores(run, stage, d)
    case ActionWrite(_, a) => a.RestoreAction?
  }

  /** What ends a snooze: a stage that stores flags of an undecided row, or a restore that is not lost. An
      event that overlaps a write which changes the row is lost with it. */
  ghost predicate EndsSnooze(row: Row, d: nat, e: Event)
    decreases e
  {
    match e
    case RunStage(run, stage) => Stores(run, stage, d) && !Decided(row)
    case UserAction(doc, a) => doc == d && a.RestoreAction?
    case Overlapped(w, between) =>
      if WriteAt(Some(row), d, w) != Some(row) then StoresOrRestores(w, d)
      else !SnoozeLasts(row, d, between)
  }

  /** No event of the history, on the row as it then was, ends the snooze. */
  ghost predicate SnoozeLasts(row: Row, d: nat, events: seq<Event>)
    decreases events
  {
    events == []
    || (var was := HistoryAt(Some(row), d, events[..|events| - 1]);
        SnoozeLasts(row, d, events[..|events| - 1]) && was.Some? && !EndsSnooze(was.value, d, events[|events| - 1]))
  }

  lemma StageSnooze(row: Row, d: nat, run: Run, stage: Stage)
    ensures StageAt(Some(row), d, run, stage).Some?
    ensures SnoozeTime(StageAt(Some(row), d, run, stage).value) ==
      if Stores(run, stage, d) && !Decided(row) then None else SnoozeTime(row)
  {
    hide DocGroup, ContactGroup, AccountGroup, JoinMessages, IssueTypes, Except, TypesExcept, RuleIds;
  }

  lemma ActSnooze(row: Row, a: Action)
    requires !a.SnoozeAction?
    ensures SnoozeTime(Act(row, a)) == if a.RestoreAction? then None else SnoozeTime(row)
  {
    hide IsDefaultsRow;
  }

  ghost predicate Ends(after: Option<Row>, row: Row, ended: bool) {
    after.Some? && SnoozeTime(after.value) == if ended then None else SnoozeTime(row)
  }

  lemma WriteSnooze(row: Row, d: nat, w: Write)
    requires WriteAt(Some(row), d, w) != Some(row) && !SnoozesAgain(ActionsOn(Overlapped(w, []), d))
    ensures Ends(WriteAt(Some(row), d, w), row, StoresOrRestores(w, d))
  {
    match w
    case StageWrite(run, stage) =>
      StageSnooze(row, d, run, stage);
      if Decided(row) {
        StagesLeaveDecided(row, d, run, stage);
      }
    case ActionWrite(doc, a) => ActSnooze(row, a);
    hide StageAt, Stores, Decided, SnoozeTime, Act;
  }

  /** One event that is not itself a snooze either ends the snooze or keeps its time. */
  lemma {:induction false} StepSnooze(row: Row, d: nat, e: Event)
    requires !SnoozesAgain(ActionsOn(e, d))
    ensures Ends(StepAt(Some(row), d, e), row, EndsSnooze(row, d, e))
    decreases e
  {
    hide StageAt, Stores, Decided, SnoozeTime, Act, WriteAt, StoresOrRestores;
    match e
    case RunStage(run, stage) =>
      StageSnooze(row, d, run, stage);
    case UserAction(doc, a) =>
      if doc == d {
        ActSnooze(row, a);
      }
    case Overlapped(w, between) =>
      if WriteAt(Some(row), d, w) != Some(row) {
        WriteSnooze(row, d, w);
      } else {
        SnoozeSurvivesIff(row, d, between);
      }
  }

  /** Exactly when a snooze survives a history without further snoozes: no event, on the row as it then was,
      ends it. Otherwise it is gone. */
  lemma {:induction false} SnoozeSurvivesIff(row: Row, d: nat, events: seq<Event>)
    requires !SnoozesAgain(ActionsIn(events, d))
    ensures HistoryAt(Some(row), d, events).Some?
    ensures SnoozeTime(HistoryAt(Some(row), d, events).value) ==
      if SnoozeLasts(row, d, events) then SnoozeTime(row) else None
    decreases events
  {
    hide StepAt, EndsSnooze, SnoozeTime, ActionsOn;
    if events != [] {
      SnoozeSurvivesIff(row, d, events[..|events| - 1]);
      StepSnooze(HistoryAt(Some(row), d, events[..|events| - 1]).value, d, events[|events| - 1]);
    }
  }

  lemma SnoozedIsHidden(row: Row, now: int, includeDismissed: bool, includeMarkedOk: bool)
    requires SnoozeTime(row).Some? && now < SnoozeTime(row).value
    ensures !FeedShows(row.result, now, includeDismissed, includeMarkedOk)
  {}

  lemma AwakeIsShown(row: Row, now: int)
    requires RowOk(row) && SnoozeTime(row).None?
    ensures FeedShows(row.result, now, false, false) <==> Visible(row)
  {
    hide ContentOk;
  }

  /** What becomes of the promise that a snoozed row stays hidden until its time: before that time the row is
      in the feed exactly when the snooze did not last and nothing else hides the row. */
  lemma SnoozedShowsIff(row: Row, d: nat, events: seq<Event>, now: int)
    requires RowOk(row) && ValidHistory(events) && !SnoozesAgain(ActionsIn(events, d))
    requires SnoozeTime(row).Some? && now < SnoozeTime(row).value
    ensures var after := HistoryAt(Some(row), d, events);
      after.Some?
      && (FeedShows(after.value.result, now, false, false) <==>
            !SnoozeLasts(row, d, events) && Visible(after.value))
  {
    SnoozeSurvivesIff(row, d, events);
    HistoryKeepsRow(Some(row), d, events);
    hide RowOk, HistoryAt, SnoozeLasts, Visible, FeedShows, SnoozeTime;
    var after := HistoryAt(Some(row), d, events).value;
    if SnoozeLasts(row, d, events) {
      SnoozedIsHidden(after, now, false, false);
    } else {
      AwakeIsShown(after, now);
    }
  }
}
