/** Every step keeps a trapped row consistent, and what a row can reach from nothing is always read the
    same way by the feed and by the statistics. */
module RowInvariant {
  import opened Wrappers
  import opened AuditItems
  import opened Issues
  import opened TrappedRows

  lemma ScoredReads(shown: seq<Item>, hidden: seq<Item>, ids: seq<IssueType>, info: Info)
    ensures var r := Scored(shown, hidden, ids, info);
      && ItemsAt(r, FlaggedKey) == shown && ItemsAt(r, SupersededKey) == hidden && RuleIds(r) == ids
      && MessagesKey in r && r[MessagesKey] == Text(JoinMessages(shown))
      && r.Keys !! HIDE_KEYS + {ResolvedKey, AutoClearedKey, AutoClearedBatchKey, AutoClearedAtKey}
  {}

  lemma ScoredOk(kind: RowKind, shown: seq<Item>, hidden: seq<Item>, ids: seq<IssueType>, info: Info)
    requires shown != [] && Plain(shown) && IdsMatch(ids, shown) && Explained(hidden, shown)
    ensures RowOk(Row(kind, Scored(shown, hidden, ids, info)))
    ensures !Decided(Row(kind, Scored(shown, hidden, ids, info)))
    ensures !Cleared(Row(kind, Scored(shown, hidden, ids, info)))
  {
    ScoredReads(shown, hidden, ids, info);
  }

  /** The types a scoped run may evaluate: none of them ever takes part in the hierarchy. */
  lemma PersistKeepsRow(before: Option<Row>, v: Verdict, scoped: bool)
    requires before.Some? ==> RowOk(before.value)
    requires VerdictOk(v) && (scoped ==> v.hidden == [] && forall f :: f in v.shown ==> IsDuplicate(f.issue))
    ensures RowOk(Persist(before, v, if scoped then Some(DUPLICATES) else None))
  {
    hide Scored, Explained, RowOk, IdsMatch, JoinMessages;
    if before.None? || (!Decided(before.value) && !scoped) {
      ScoredOk(if before.None? then v.kind else before.value.kind, v.shown, v.hidden, v.ruleIds, v.info) by {
        VerdictParts(v);
      }
    } else if !Decided(before.value) {
      MergeKeepsRow(before.value, v);
    }
  }

  lemma VerdictParts(v: Verdict)
    requires VerdictOk(v)
    ensures v.shown != [] && Plain(v.shown) && IdsMatch(v.ruleIds, v.shown) && Explained(v.hidden, v.shown)
  {}

  lemma MergeKeepsRow(row: Row, v: Verdict)
    requires RowOk(row) && VerdictOk(v) && v.hidden == []
    ensures var shown := Except(Shown(row), DUPLICATES) + v.shown;
      RowOk(Row(row.kind, Scored(shown, Except(Hidden(row), DUPLICATES) + v.hidden, IssueTypes(shown), v.info)))
  {
    var shown := Except(Shown(row), DUPLICATES) + v.shown;
    ExplainedWithoutDuplicates(Hidden(row), Shown(row), v.shown);
    assert Except(Hidden(row), DUPLICATES) + [] == Hidden(row);
    ScoredOk(row.kind, shown, Hidden(row), IssueTypes(shown), v.info);
  }

  lemma ClearKeepsRow(row: Row, batch: string, now: string)
    requires RowOk(row)
    ensures RowOk(Clear(row, batch, now))
  {
    ClearReads(row.result, batch, now);
  }

  lemma ClearReads(r: Result, batch: string, now: string)
    ensures var c := MarkCleared(r, batch, now);
      && ItemsAt(c, FlaggedKey) == ItemsAt(r, FlaggedKey) && ItemsAt(c, SupersededKey) == ItemsAt(r, SupersededKey)
      && RuleIds(c) == RuleIds(r) && Truthy(c, AutoClearedKey)
      && c[AutoClearedBatchKey] == Text(batch) && c[AutoClearedAtKey] == Text(now)
      && (forall k :: k !in {AutoClearedKey, AutoClearedBatchKey, AutoClearedAtKey} ==>
            (k in c <==> k in r) && (k in r ==> c[k] == r[k]))
  {}

  /** A row's ids tell whether it shows a duplicate, and whether it shows anything else. */
  lemma IdsTellDuplicates(row: Row)
    requires RowOk(row)
    ensures TypesExcept(RuleIds(row.result), DUPLICATES) == RuleIds(row.result) <==> Only(Shown(row), DUPLICATES) == []
    ensures TypesExcept(RuleIds(row.result), DUPLICATES) == [] <==> Except(Shown(row), DUPLICATES) == []
    ensures TypesExcept(RuleIds(row.result), DUPLICATES) != RuleIds(row.result) ==>
      TypesExcept(RuleIds(row.result), DUPLICATES) == IssueTypes(Except(Shown(row), DUPLICATES))
  {
    var ids, shown := RuleIds(row.result), Shown(row);
    if ids == IssueTypes(shown) {
      ProjectExcept(shown, DUPLICATES);
      KeptAllTypes(ids, DUPLICATES);
      NoDuplicatesShown(shown);
    } else {
      ExceptNothing(shown, DUPLICATES);
      assert [MissingAccrual][1..] == [];
    }
  }

  lemma NoDuplicatesShown(shown: seq<Item>)
    ensures Only(shown, DUPLICATES) == [] <==> forall t :: t in IssueTypes(shown) ==> t !in DUPLICATES
  {
    forall t ensures t in IssueTypes(shown) <==> t in TypesOf(shown) {
      TypeOfMember(shown, t);
    }
    if Only(shown, DUPLICATES) == [] {
      forall f | f in shown ensures f.issue !in DUPLICATES {
        assert f in Only(shown, DUPLICATES) <==> f.issue in DUPLICATES;
      }
    } else {
      var f := Only(shown, DUPLICATES)[0];
      assert f in Only(shown, DUPLICATES);
      assert f.issue in TypesOf(shown);
    }
  }

  lemma StripKeepsRow(row: Row, batch: string, now: string)
    requires RowOk(row)
    ensures RowOk(StripDuplicates(row, batch, now))
  {
    IdsTellDuplicates(row);
    var ids := RuleIds(row.result);
    var kept := TypesExcept(ids, DUPLICATES);
    if !Decided(row) && !Cleared(row) && kept != ids {
      if kept == [] {
        ClearReads(row.result, batch, now);
      } else {
        StrippedOk(row, kept);
      }
    }
  }

  lemma RewrittenReads(r: Result, shown: seq<Item>, ids: seq<IssueType>)
    ensures var q := Rewritten(r, shown, ids);
      && ItemsAt(q, FlaggedKey) == shown && ItemsAt(q, SupersededKey) == ItemsAt(r, SupersededKey) && RuleIds(q) == ids
      && MessagesKey in q && q[MessagesKey] == Text(JoinMessages(shown))
      && (MarksOk(r) ==> MarksOk(q))
      && (forall k :: k !in {FlaggedKey, RuleIdsKey, MessagesKey} ==> (k in q <==> k in r) && (k in r ==> q[k] == r[k]))
  {
    hide JoinMessages;
  }

  lemma StrippedOk(row: Row, kept: seq<IssueType>)
    requires RowOk(row) && kept != [] && kept == IssueTypes(Except(Shown(row), DUPLICATES))
    ensures RowOk(Row(row.kind, Rewritten(row.result, Except(Shown(row), DUPLICATES), kept)))
  {
    var shown := Except(Shown(row), DUPLICATES);
    assert shown != [] && Plain(shown);
    ExplainedWithoutDuplicates(Hidden(row), Shown(row), []);
    assert shown + [] == shown;
    RewrittenReads(row.result, shown, kept);
    hide JoinMessages, Explained, Rewritten, Except, IssueTypes, Plain;
    assert ContentOk(Rewritten(row.result, shown, kept));
  }

  /** The keys user actions write beside their mark are notes that nothing else reads. */
  const NOTE_KEYS: set<Key> := {
    ResolutionNotesKey, ResolvedByKey, XeroResponseKey, DismissalReasonKey, DismissedByKey,
    MarkOkReasonKey, MarkedOkByKey, SnoozedUntilKey, SnoozeReasonKey, SnoozedByKey}

  /** Apart from notes, two results agree. */
  ghost predicate SameButNotes(r: Result, q: Result) {
    forall k :: k !in NOTE_KEYS ==> (k in r <==> k in q) && (k in r ==> r[k] == q[k])
  }

  lemma SameButNotesOk(kind: RowKind, r: Result, q: Result)
    requires SameButNotes(r, q) && RowOk(Row(kind, r))
    ensures RowOk(Row(kind, q))
  {
    assert ItemsAt(q, FlaggedKey) == ItemsAt(r, FlaggedKey) && ItemsAt(q, SupersededKey) == ItemsAt(r, SupersededKey);
    assert RuleIds(q) == RuleIds(r);
  }

  /** What each user action changes, apart from notes. */
  lemma ActionReads(row: Row, a: string, b: string, response: Option<string>, until: int, iso: string)
    ensures SameButNotes(row.result[ResolvedKey := Flag(true)], Resolve(row, a, b, response).result)
    ensures SameButNotes(row.result[DismissedKey := Flag(true)], Dismiss(row, a, b).result)
    ensures SameButNotes(row.result[MarkedOkKey := Flag(true)], Accept(row, a, b).result)
    ensures SameButNotes(row.result[SnoozedUntilTsKey := Number(until)], Snooze(row, until, iso, a, b).result)
  {}

  lemma MarkKeepsRow(row: Row, k: Key, j: Json)
    requires RowOk(row)
    requires
      || (k in {ResolvedKey, MarkedOkKey} && j == Flag(true))
      || (k == DismissedKey && j.Flag?)
      || (k == SnoozedUntilTsKey && j.Number?)
    ensures RowOk(Row(row.kind, row.result[k := j]))
  {
    var r := row.result[k := j];
    assert ItemsAt(r, FlaggedKey) == Shown(row) && ItemsAt(r, SupersededKey) == Hidden(row);
    assert RuleIds(r) == RuleIds(row.result);
  }

  lemma NotedSame(r: Result, reason: string)
    ensures SameButNotes(r, Noted(r, DismissalReasonKey, reason))
  {}

  lemma DefaultsKeepRow(row: Row, change: DefaultsChange)
    requires RowOk(row)
    ensures RowOk(ChangeDefaults(row, change))
  {
    hide RowOk, Noted, SameButNotes;
    MarkKeepsRow(row, DismissedKey, Flag(change.DismissDefaults?));
    if change.DismissDefaults? {
      var r := row.result[DismissedKey := Flag(true)];
      NotedSame(r, change.reason);
      SameButNotesOk(row.kind, r, Noted(r, DismissalReasonKey, change.reason));
    }
  }

  lemma NewDefaultsRowOk(contact: nat, reason: string)
    ensures RowOk(NewDefaultsRow(contact, reason))
  {
    var flag := Item(Uuid(contact), CONTACT_DEFAULTS, "", None, "", None);
    var r := map[FlaggedKey := ItemList([flag]), RuleIdsKey := TypeList([CONTACT_DEFAULTS]),
                 MessagesKey := Text(""), DismissedKey := Flag(true)];
    SingleItem(flag);
    assert RowOk(Row(ContactRow, r)) by { hide JoinMessages, IssueTypes; }
    hide RowOk, Noted, SameButNotes;
    NotedSame(r, reason);
    SameButNotesOk(ContactRow, r, Noted(r, DismissalReasonKey, reason));
  }

  lemma SingleItem(f: Item)
    requires f.message == ""
    ensures IssueTypes([f]) == [f.issue] && JoinMessages([f]) == ""
  {
    assert [f][1..] == [];
  }

  lemma RestoreKeepsRow(row: Row)
    requires RowOk(row)
    ensures RowOk(Restore(row))
  {
    var r := Restore(row).result;
    assert ItemsAt(r, FlaggedKey) == Shown(row) && ItemsAt(r, SupersededKey) == Hidden(row);
    assert RuleIds(r) == RuleIds(row.result);
  }

  // ----- Feed and statistics -------------------------------------------------------------------

  /** On a consistent row the default feed filter and the statistics agree, at every time; and each
      widening toggle shows exactly what it says. */
  lemma FeedMatchesStats(row: Row, now: int)
    requires RowOk(row)
    ensures FeedShows(row.result, now, false, false) <==> StatsOpen(row.result, now)
    ensures FeedShows(row.result, now, true, false) <==>
      StatsOpen(row.result - {DismissedKey}, now)
    ensures FeedShows(row.result, now, true, true) <==>
      StatsOpen(row.result - {DismissedKey, MarkedOkKey}, now)
  {}
}
