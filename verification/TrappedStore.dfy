/** The store of trapped rows, one row per document, updated in place by audit runs and user actions. */
module TrappedStore {
  import opened Wrappers
  import opened Grouping
  import opened AuditItems
  import opened Issues
  import opened TrappedRows
  import opened AuditRuns

  function At(rows: map<nat, Row>, d: nat): Option<Row> {
    if d in rows then Some(rows[d]) else None
  }

  /** The ids of the flags that are UUIDs. */
  function UuidsOf(items: seq<Item>): (ids: set<nat>)
    ensures forall d :: d in ids <==> exists f :: f in items && f.txId == Uuid(d)
  {
    set f | f in items && f.txId.Uuid? :: f.txId.id
  }

  function TxIds(txs: map<TxId, Tx>): (ids: set<nat>)
    ensures forall d :: d in ids <==> Uuid(d) in txs
  {
    set t | t in txs && t.Uuid? :: t.id
  }

  /** The flags after the capital dedup and the hierarchy, in the order the run applies them. */
  method PrepareFlags(engine: seq<Item>, txs: map<TxId, Tx>, assets: seq<Asset>) returns (flags: seq<Item>)
    ensures flags == Tagged(Unregistered(engine, Days(txs), assets))
  {
    var kept := DropAlreadyCapitalised(engine, Days(txs), assets);
    var a := new Item[|kept|](i requires 0 <= i < |kept| => kept[i]);
    assert a[..] == kept;
    ApplyHierarchy(a);
    flags := a[..];
  }

  /** Each group of flags decides the fate of one id. */
  ghost function PersistedAt(before: Option<Row>, d: nat, groups: map<TxId, seq<Item>>, done: seq<TxId>,
        txs: map<TxId, Tx>, batch: string, evaluated: Option<set<IssueType>>): Option<Row> {
    if Uuid(d) in done && Uuid(d) in groups && Uuid(d) in txs
    then Some(Persist(before, DocVerdict(groups[Uuid(d)], txs[Uuid(d)], batch), evaluated))
    else before
  }

  /** The flagged documents the run knows. */
  function Known(ids: seq<TxId>, txs: map<TxId, Tx>): set<nat> {
    set t | t in ids && t in txs && t.Uuid? :: t.id
  }

  /** Those of them whose row may be scored: no user has decided it. */
  function Scorable(ids: seq<TxId>, txs: map<TxId, Tx>, rows: map<nat, Row>): set<nat> {
    set d | d in Known(ids, txs) && !(d in rows && Decided(rows[d]))
  }

  /** One more group adds at most one known document, and it is new. */
  lemma KnownSnoc(ids: seq<TxId>, id: TxId, txs: map<TxId, Tx>)
    requires id !in ids
    ensures Known(ids + [id], txs) == Known(ids, txs) + if id in txs && id.Uuid? then {id.id} else {}
    ensures id.Uuid? ==> id.id !in Known(ids, txs)
  {}

  lemma ScorableSnoc(ids: seq<TxId>, id: TxId, txs: map<TxId, Tx>, rows: map<nat, Row>)
    requires id !in ids
    ensures |Known(ids + [id], txs)| == |Known(ids, txs)| + if id in txs && id.Uuid? then 1 else 0
    ensures |Scorable(ids + [id], txs, rows)| == |Scorable(ids, txs, rows)|
      + if id in txs && id.Uuid? && !(id.id in rows && Decided(rows[id.id])) then 1 else 0
  {
    hide Decided, Known;
    KnownSnoc(ids, id, txs);
    if id in txs && id.Uuid? {
      var more := if id.id in rows && Decided(rows[id.id]) then {} else {id.id};
      assert Scorable(ids + [id], txs, rows) == Scorable(ids, txs, rows) + more;
    } else {
      assert Scorable(ids + [id], txs, rows) == Scorable(ids, txs, rows);
    }
  }

  /** Stale rows that are neither decided nor cleared already. */
  function Clearable(stale: set<nat>, rows: map<nat, Row>): (s: set<nat>)
    ensures forall d :: d in s <==> d in stale && d in rows && !Decided(rows[d]) && !Cleared(rows[d])
  {
    set d | d in stale && d in rows && !Decided(rows[d]) && !Cleared(rows[d])
  }

  predicate HasDuplicateToStrip(row: Row) {
    !Decided(row) && !Cleared(row) && TypesExcept(RuleIds(row.result), DUPLICATES) != RuleIds(row.result)
  }

  /** Stale rows that have a duplicate to strip. */
  function Strippable(stale: set<nat>, rows: map<nat, Row>): (s: set<nat>)
    ensures forall d :: d in s <==> d in stale && d in rows && HasDuplicateToStrip(rows[d])
  {
    set d | d in stale && d in rows && HasDuplicateToStrip(rows[d])
  }

  lemma CountStep(all: set<nat>, todo: set<nat>, d: nat)
    requires d in todo
    ensures |all - (todo - {d})| == |all - todo| + if d in all then 1 else 0
  {
    if d in all {
      assert all - (todo - {d}) == (all - todo) + {d};
    } else {
      assert all - (todo - {d}) == all - todo;
    }
  }

  /** Every stale row is cleared, except those still to do; no other row changes, none is added or removed. */
  ghost predicate ClearedExcept(before: map<nat, Row>, after: map<nat, Row>,
        stale: set<nat>, todo: set<nat>, batch: string, now: string) {
    && after.Keys == before.Keys
    && forall d :: d in before ==>
         after[d] == if d in stale && d !in todo then Clear(before[d], batch, now) else before[d]
  }

  lemma ClearNothing(rows: map<nat, Row>, stale: set<nat>, batch: string, now: string)
    ensures ClearedExcept(rows, rows, stale, stale * rows.Keys, batch, now)
    ensures Clearable(stale, rows) - stale * rows.Keys == {}
  {
    hide Clear, Decided, Cleared, Clearable;
  }

  lemma ClearStep(
    before: map<nat, Row>, mid: map<nat, Row>, stale: set<nat>, todo: set<nat>, d: nat, batch: string, now: string)
    requires ClearedExcept(before, mid, stale, todo, batch, now) && todo <= stale && d in todo && d in mid
    ensures ClearedExcept(before, mid[d := Clear(mid[d], batch, now)], stale, todo - {d}, batch, now)
    ensures d in Clearable(stale, before) <==> !Decided(mid[d]) && !Cleared(mid[d])
  {
    hide Clear, Decided, Cleared, Clearable;
  }

  /** Every stale row is stripped of its duplicates, except those still to do. */
  ghost predicate StrippedExcept(before: map<nat, Row>, after: map<nat, Row>,
        stale: set<nat>, todo: set<nat>, batch: string, now: string) {
    && after.Keys == before.Keys
    && forall d :: d in before ==>
         after[d] == if d in stale && d !in todo then StripDuplicates(before[d], batch, now) else before[d]
  }

  lemma StripNothing(rows: map<nat, Row>, stale: set<nat>, batch: string, now: string)
    ensures StrippedExcept(rows, rows, stale, stale * rows.Keys, batch, now)
    ensures Strippable(stale, rows) - stale * rows.Keys == {}
  {
    hide StripDuplicates, HasDuplicateToStrip, Strippable;
  }

  lemma StripStep(
    before: map<nat, Row>, mid: map<nat, Row>, stale: set<nat>, todo: set<nat>, d: nat, batch: string, now: string)
    requires StrippedExcept(before, mid, stale, todo, batch, now) && todo <= stale && d in todo && d in mid
    ensures StrippedExcept(before, mid[d := StripDuplicates(mid[d], batch, now)], stale, todo - {d}, batch, now)
    ensures d in Strippable(stale, before) <==> HasDuplicateToStrip(mid[d])
  {
    hide StripDuplicates, HasDuplicateToStrip, Strippable;
  }

  /** One row's section verdict: contacts and accounts differ in the kind and in the ids they list. */
  function SectionVerdict(group: seq<Item>, accounts: bool, batch: string): Verdict {
    if accounts then AccountVerdict(group, batch) else ContactVerdict(group, batch)
  }

  function SectionAt(before: Option<Row>, d: nat, flags: seq<Item>, flagged: bool, accounts: bool, batch: string)
    : Option<Row>
  {
    var group := Bucket(flags, TxKey, Uuid(d));
    if flagged then Some(Persist(before, SectionVerdict(group, accounts, batch), None)) else before
  }

  class Store {
    var rows: map<nat, Row>

    constructor ()
      ensures rows == map[]
    {
      rows := map[];
    }

    /** One flagged document of a known transaction. */
    method ScoreOne(id: nat, verdict: Verdict, evaluated: Option<set<IssueType>>) returns (scored: bool)
      modifies this
      ensures rows == old(rows)[id := Persist(At(old(rows), id), verdict, evaluated)]
      ensures scored <==> !(id in old(rows) && Decided(old(rows)[id]))
    {
      scored := !(id in rows && Decided(rows[id]));
      if scored {
        rows := rows[id := Persist(At(rows, id), verdict, evaluated)];
      } else {
        DecidedStays(rows[id], verdict, evaluated);
      }
    }

    /** `_persist_trapped`, group by group. Counts the documents flagged and the rows scored. */
    method PersistTrapped(txs: map<TxId, Tx>, order: seq<TxId>, groups: map<TxId, seq<Item>>, batch: string,
          evaluated: Option<set<IssueType>>)
      returns (flaggedTotal: int, scored: int)
      requires Distinct(order) && forall t :: t in order <==> t in groups
      modifies this
      ensures forall d :: At(rows, d) == PersistedAt(At(old(rows), d), d, groups, order, txs, batch, evaluated)
      ensures flaggedTotal == |Known(order, txs)| && scored == |Scorable(order, txs, old(rows))|
    {
      hide Persist, DocVerdict, Known, Decided, Scorable;
      flaggedTotal, scored := 0, 0;
      NoneKnown(txs, rows);
      for i := 0 to |order|
        invariant forall d :: At(rows, d) == PersistedAt(At(old(rows), d), d, groups, order[..i], txs, batch, evaluated)
        invariant flaggedTotal == |Known(order[..i], txs)| && scored == |Scorable(order[..i], txs, old(rows))|
      {
        var id := order[i];
        assert order[..i + 1] == order[..i] + [id];
        assert id !in order[..i];
        ScorableSnoc(order[..i], id, txs, old(rows));
        if id in txs && id.Uuid? {
          assert At(rows, id.id) == At(old(rows), id.id);
          flaggedTotal := flaggedTotal + 1;
          var done := ScoreOne(id.id, DocVerdict(groups[id], txs[id], batch), evaluated);
          if done {
            scored := scored + 1;
          }
        }
      }
      assert order[..|order|] == order;
    }

    /** Contact or account flags, grouped by id: a full re-score, or a new row. */
    method PersistSection(flags: seq<Item>, accounts: bool, batch: string)
      modifies this
      ensures forall d ::
        At(rows, d)
        == SectionAt(At(old(rows), d), d, flags, Bucket(flags, TxKey, Uuid(d)) != [], accounts, batch)
    {
      hide Persist, SectionVerdict, Bucket;
      var order, groups := GroupBy(flags, TxKey);
      for i := 0 to |order|
        invariant forall d ::
          At(rows, d) == SectionAt(At(old(rows), d), d, flags, Uuid(d) in order[..i], accounts, batch)
      {
        var id := order[i];
        assert order[..i + 1] == order[..i] + [id];
        assert id !in order[..i];
        if id.Uuid? {
          var _ := ScoreOne(id.id, SectionVerdict(groups[id], accounts, batch), None);
        }
      }
      assert order[..|order|] == order;
      forall d
        ensures Uuid(d) in order <==> Bucket(flags, TxKey, Uuid(d)) != []
      {
        GroupedIffPresent(flags, order, groups, d);
      }
    }

    method ClearOne(d: nat, batch: string, now: string) returns (cleared: bool)
      requires d in rows
      modifies this
      ensures rows == old(rows)[d := Clear(old(rows)[d], batch, now)]
      ensures cleared <==> !Decided(old(rows)[d]) && !Cleared(old(rows)[d])
    {
      cleared := !(Decided(rows[d]) || Cleared(rows[d]));
      if cleared {
        rows := rows[d := Row(rows[d].kind, MarkCleared(rows[d].result, batch, now))];
      }
    }

    /** `_auto_clear_stale` over the stale rows present. */
    method AutoClearStale(stale: set<nat>, batch: string, now: string) returns (cleared: int)
      modifies this
      ensures ClearedExcept(old(rows), rows, stale, {}, batch, now)
      ensures cleared == |Clearable(stale, old(rows))|
    {
      hide *;
      cleared := 0;
      ghost var all := Clearable(stale, rows);
      var todo := stale * rows.Keys;
      ClearNothing(rows, stale, batch, now);
      while todo != {}
        invariant todo <= stale && todo <= rows.Keys
        invariant ClearedExcept(old(rows), rows, stale, todo, batch, now)
        invariant cleared == |all - todo|
      {
        var d :| d in todo;
        ClearStep(old(rows), rows, stale, todo, d, batch, now);
        CountStep(all, todo, d);
        todo := todo - {d};
        var changed := ClearOne(d, batch, now);
        if changed {
          cleared := cleared + 1;
        }
      }
      assert all - {} == all;
    }

    method StripOne(d: nat, batch: string, now: string) returns (changed: bool)
      requires d in rows
      modifies this
      ensures rows == old(rows)[d := StripDuplicates(old(rows)[d], batch, now)]
      ensures changed <==> HasDuplicateToStrip(old(rows)[d])
    {
      hide Decided, Cleared, MarkCleared, RuleIds, JoinMessages, Shown;
      changed := false;
      var row := rows[d];
      if !(Decided(row) || Cleared(row)) {
        var ids := RuleIds(row.result);
        var kept := TypesExcept(ids, DUPLICATES);
        if kept != ids {
          if kept == [] {
            rows := rows[d := Row(row.kind, MarkCleared(row.result, batch, now))];
          } else {
            var shown := Except(Shown(row), DUPLICATES);
            var messages := JoinMessages(shown);
            var relisted := row.result[FlaggedKey := ItemList(shown)][RuleIdsKey := TypeList(kept)];
            var result := relisted[MessagesKey := Text(messages)];
            rows := rows[d := Row(row.kind, result)];
          }
          changed := true;
        }
      }
    }

    /** `_reconcile_stale_duplicates` over the stale rows present. */
    method ReconcileStaleDuplicates(stale: set<nat>, batch: string, now: string) returns (changed: int)
      modifies this
      ensures StrippedExcept(old(rows), rows, stale, {}, batch, now)
      ensures changed == |Strippable(stale, old(rows))|
    {
      hide *;
      changed := 0;
      ghost var all := Strippable(stale, rows);
      var todo := stale * rows.Keys;
      StripNothing(rows, stale, batch, now);
      while todo != {}
        invariant todo <= stale && todo <= rows.Keys
        invariant StrippedExcept(old(rows), rows, stale, todo, batch, now)
        invariant changed == |all - todo|
      {
        var d :| d in todo;
        StripStep(old(rows), rows, stale, todo, d, batch, now);
        CountStep(all, todo, d);
        todo := todo - {d};
        var stripped := StripOne(d, batch, now);
        if stripped {
          changed := changed + 1;
        }
      }
      assert all - {} == all;
    }

    // ----- Whole runs --------------------------------------------------------------------------

    /** Flags are prepared, grouped and persisted. */
    method PersistDocuments(run: Run, evaluated: Option<set<IssueType>>) returns (flagged: set<nat>)
      modifies this
      ensures forall d :: At(rows, d) == PersistDocAt(At(old(rows), d), d, run, evaluated)
      ensures forall d :: d in flagged <==> DocGroup(run, d) != []
    {
      hide Persist, DocVerdict, Tagged, Unregistered, Bucket, UuidsOf;
      var flags := PrepareFlags(run.engine, run.txs, run.assets);
      var order, groups := GroupBy(flags, TxKey);
      var _, _ := PersistTrapped(run.txs, order, groups, run.batch, evaluated);
      flagged := UuidsOf(flags);
      forall d
        ensures Uuid(d) in order <==> DocGroup(run, d) != []
        ensures d in flagged <==> DocGroup(run, d) != []
      {
        GroupedIffPresent(flags, order, groups, d);
        UuidsAreGroupsAt(flags, d);
      }
    }

    method PersistContacts(run: Run)
      modifies this
      ensures forall d :: At(rows, d) == PersistContactAt(At(old(rows), d), d, run)
    {
      hide Persist, ContactVerdict, AccountVerdict;
      if run.contacts != {} {
        PersistSection(run.contactFlags, false, run.batch);
      }
    }

    method PersistAccounts(run: Run)
      modifies this
      ensures forall d :: At(rows, d) == PersistAccountAt(At(old(rows), d), d, run)
    {
      hide Persist, ContactVerdict, AccountVerdict, Bucket;
      if run.accruals.Some? {
        PersistSection(run.accruals.value, true, run.batch);
      }
    }

    /** Account rows that this run's accrual check no longer flags. */
    method ClearAccounts(run: Run)
      modifies this
      ensures forall d :: At(rows, d) == ClearAt(At(old(rows), d), StaleAccount(At(old(rows), d), d, run), run)
    {
      hide Clear, Bucket, UuidsOf, Clearable;
      if run.accruals.Some? {
        var flagged := UuidsOf(run.accruals.value);
        var stale := set d | d in rows && rows[d].kind == AccountRow && d !in flagged;
        forall d ensures d in flagged <==> AccountGroup(run, d) != [] {
          UuidsAreGroupsAt(run.accruals.value, d);
        }
        var _ := AutoClearStale(stale, run.batch, run.now);
      }
    }

    /** The full audit: every row ends as the run's verdicts say. */
    method FullAudit(run: Run)
      modifies this
      ensures forall d :: At(rows, d) == FullAt(At(old(rows), d), d, run)
    {
      hide PersistDocAt, PersistContactAt, PersistAccountAt, StaleAccount;
      hide Clear, DocGroup, ContactGroup, TxIds, UuidsOf, Clearable;
      var flagged := PersistDocuments(run, None);
      ghost var r1 := rows;
      PersistContacts(run);
      ghost var r2 := rows;
      PersistAccounts(run);
      ghost var r3 := rows;
      ClearAccounts(run);
      ghost var r4 := rows;
      var stale := TxIds(run.txs) + run.contacts - (flagged + UuidsOf(ContactFlags(run)));
      forall d ensures d in stale <==> Stale(run, d) {
        ContactFlaggedIff(run, d);
      }
      var _ := AutoClearStale(stale, run.batch, run.now);
      forall d
        ensures At(rows, d) == FullAt(At(old(rows), d), d, run)
      {
        assert At(r1, d) == PersistDocAt(At(old(rows), d), d, run, None);
        assert At(r2, d) == PersistContactAt(At(r1, d), d, run);
        assert At(r3, d) == PersistAccountAt(At(r2, d), d, run);
        assert At(r4, d) == ClearAt(At(r3, d), StaleAccount(At(r3, d), d, run), run);
      }
    }

    /** The duplicates-only audit. */
    method DuplicatesAudit(run: Run)
      modifies this
      ensures forall d :: At(rows, d) == DuplicatesAt(At(old(rows), d), d, run)
    {
      hide PersistDocAt, StripDuplicates, DocGroup, TxIds, Strippable;
      var flagged := PersistDocuments(run, Some(DUPLICATES));
      ghost var r1 := rows;
      var stale := TxIds(run.txs) + run.contacts - flagged;
      var _ := ReconcileStaleDuplicates(stale, run.batch, run.now);
      forall d
        ensures At(rows, d) == DuplicatesAt(At(old(rows), d), d, run)
      {
        assert At(r1, d) == PersistDocAt(At(old(rows), d), d, run, Some(DUPLICATES));
      }
    }

    // ----- User actions ------------------------------------------------------------------------

    // Each action copies the row's result, edits the copy and puts it back; a missing row is reported and
    // nothing changes.

    method MarkResolved(d: nat, notes: string, user: string, response: Option<string>) returns (found: bool)
      modifies this
      ensures found <==> d in old(rows)
      ensures forall e ::
        At(rows, e) == StepAt(At(old(rows), e), e, UserAction(d, ResolveAction(notes, user, response)))
    {
      found := d in rows;
      if found {
        var result := rows[d].result[ResolvedKey := Flag(true)];
        if notes != "" { result := result[ResolutionNotesKey := Text(notes)]; }
        if user != "" { result := result[ResolvedByKey := Text(user)]; }
        if response.Some? { result := result[XeroResponseKey := Text(response.value)]; }
        rows := rows[d := Row(rows[d].kind, result)];
      }
    }

    method MarkDismissed(d: nat, reason: string, user: string) returns (found: bool)
      modifies this
      ensures found <==> d in old(rows)
      ensures forall e :: At(rows, e) == StepAt(At(old(rows), e), e, UserAction(d, DismissAction(reason, user)))
    {
      found := d in rows;
      if found {
        var result := rows[d].result[DismissedKey := Flag(true)];
        if reason != "" { result := result[DismissalReasonKey := Text(reason)]; }
        if user != "" { result := result[DismissedByKey := Text(user)]; }
        rows := rows[d := Row(rows[d].kind, result)];
      }
    }

    method MarkOk(d: nat, reason: string, user: string) returns (found: bool)
      modifies this
      ensures found <==> d in old(rows)
      ensures forall e :: At(rows, e) == StepAt(At(old(rows), e), e, UserAction(d, AcceptAction(reason, user)))
    {
      found := d in rows;
      if found {
        var result := rows[d].result[MarkedOkKey := Flag(true)];
        if reason != "" { result := result[MarkOkReasonKey := Text(reason)]; }
        if user != "" { result := result[MarkedOkByKey := Text(user)]; }
        rows := rows[d := Row(rows[d].kind, result)];
      }
    }

    method MarkSnoozed(d: nat, until: int, iso: string, reason: string, user: string) returns (found: bool)
      modifies this
      ensures found <==> d in old(rows)
      ensures forall e ::
        At(rows, e) == StepAt(At(old(rows), e), e, UserAction(d, SnoozeAction(until, iso, reason, user)))
    {
      found := d in rows;
      if found {
        var result := rows[d].result[SnoozedUntilTsKey := Number(until)][SnoozedUntilKey := Text(iso)];
        if reason != "" { result := result[SnoozeReasonKey := Text(reason)]; }
        if user != "" { result := result[SnoozedByKey := Text(user)]; }
        rows := rows[d := Row(rows[d].kind, result)];
      }
    }

    /** `restore` pops the hide keys one by one. */
    method RestoreRow(d: nat) returns (found: bool)
      modifies this
      ensures found <==> d in old(rows)
      ensures forall e :: At(rows, e) == StepAt(At(old(rows), e), e, UserAction(d, RestoreAction))
    {
      found := d in rows;
      if found {
        var result := rows[d].result;
        var keys := HIDE_KEYS;
        while keys != {}
          invariant keys <= HIDE_KEYS && result == rows[d].result - (HIDE_KEYS - keys)
        {
          var k :| k in keys;
          keys := keys - {k};
          result := result - {k};
        }
        assert HIDE_KEYS - keys == HIDE_KEYS;
        assert Row(rows[d].kind, result) == Act(rows[d], RestoreAction);
        rows := rows[d := Row(rows[d].kind, result)];
      }
    }

    /** `ContactDefaultsService.dismiss`: the contact's row on that list is marked, or a minimal one made. */
    method DismissContactDefaults(d: nat, reason: string)
      modifies this
      ensures forall e ::
        At(rows, e) == StepAt(At(old(rows), e), e, UserAction(d, DefaultsAction(DismissDefaults(reason))))
    {
      if d !in rows {
        rows := rows[d := NewDefaultsRow(d, reason)];
      } else if IsDefaultsRow(rows[d]) {
        var result := rows[d].result[DismissedKey := Flag(true)];
        if reason != "" { result := result[DismissalReasonKey := Text(reason)]; }
        rows := rows[d := Row(rows[d].kind, result)];
      }
    }

    /** `ContactDefaultsService.reinstate` */
    method ReinstateContactDefaults(d: nat)
      modifies this
      ensures forall e :: At(rows, e) == StepAt(At(old(rows), e), e, UserAction(d, DefaultsAction(ReinstateDefaults)))
    {
      if d in rows && IsDefaultsRow(rows[d]) {
        rows := rows[d := Row(rows[d].kind, rows[d].result[DismissedKey := Flag(false)])];
      }
    }
  }

  lemma NoneKnown(txs: map<TxId, Tx>, rows: map<nat, Row>)
    ensures Known([], txs) == {} && Scorable([], txs, rows) == {}
  {}

  lemma ContactFlaggedIff(run: Run, d: nat)
    ensures d in UuidsOf(ContactFlags(run)) <==> ContactGroup(run, d) != []
    ensures d in TxIds(run.txs) <==> Uuid(d) in run.txs
  {
    UuidsAreGroupsAt(ContactFlags(run), d);
  }

  lemma UuidsAreGroupsAt(items: seq<Item>, d: nat)
    ensures d in UuidsOf(items) <==> Bucket(items, TxKey, Uuid(d)) != []
  {
    if f :| f in items && f.txId == Uuid(d) {
      var i :| 0 <= i < |items| && items[i] == f;
      BucketMember(items, TxKey, Uuid(d), i);
    }
    if Bucket(items, TxKey, Uuid(d)) != [] {
      assert Bucket(items, TxKey, Uuid(d))[0] in items;
    }
  }

  lemma DecidedStays(row: Row, v: Verdict, evaluated: Option<set<IssueType>>)
    requires Decided(row)
    ensures Persist(Some(row), v, evaluated) == row
  {}

  lemma GroupedIffPresent(flags: seq<Item>, order: seq<TxId>, groups: map<TxId, seq<Item>>, d: nat)
    requires IsGrouping(flags, TxKey, order, groups)
    ensures Uuid(d) in order <==> Bucket(flags, TxKey, Uuid(d)) != []
  {
    if Bucket(flags, TxKey, Uuid(d)) != [] {
      var f := Bucket(flags, TxKey, Uuid(d))[0];
      assert f in flags;
      var i :| 0 <= i < |flags| && flags[i] == f;
      assert TxKey(flags[i]).value in groups;
    }
  }
}
