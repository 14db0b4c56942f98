# Health-check audit: model and proofs

A ledger audit fetches a company's documents, runs checks over them and stores one *trapped row* per
flagged document. Users then resolve, dismiss, accept, snooze or restore rows, and later runs re-score or
clear them. This project models the parts of `app/modules/healthcheck` with the most state, branching and
arithmetic, and proves what they are relied on for.

Check everything with `dafny verify dfyconfig.toml`.

## How the files fit together

| files | what they model |
|---|---|
| `AuditItems`, `TrappedRows`, `RowInvariant`, `AuditRuns`, `AuditSafety`, `StoredVerdicts`, `Overlaps`, `Snoozing`, `AuditExamples`, `TrappedStore` | the audit lifecycle: capital dedup and hierarchy, one row's JSON under every step, whole runs, whole histories, writes that overlap, and the store class that updates rows in place |
| `ContactAlias` | union-find over duplicate-contact pairs |
| `PairSweep`, `Duplicates`, `DuplicateEvidence`, `DuplicateOrder`, `Originals`, `CrossContact`, `CrossEvidence` | the blocked, sorted, windowed duplicate searches against the all-pairs form, and what the report says of the documents' own fields |
| `BankJoin` | the contact-indexed settlement join against the nested loop |
| `Calendar`, `Terms`, `Prepayments`, `PrepaymentScan`, `PrepaymentSchedule`, `ScheduleRows` | month ends, year-ends, how many months a period has and has left, the prepaid split and its release, the amortisation grid |
| `MissingAccruals`, `AccrualEvidence`, `AmountOutliers`, `OutlierEvidence`, `UnusualPayments`, `PaymentEvidence` | pattern scans: gap runs, a median bound, an averages bound, and what is reported in terms of the ledger |
| `Basics`, `Grouping`, `Documents` | rounding, string order, issue types, the group-into-a-dictionary idiom, the ledger document and the median |

Loops and in-place updates of the source are methods with loops, classes and arrays here; each is proved
equal to a specification function, and the properties are lemmas about that function. The `Evidence` files,
`StoredVerdicts` and `ScheduleRows` say what the functions shared by the loops and their specifications come to
in terms of the inputs alone: which pairs, months, payments and flags are reported, with which figures. Money is
in whole pence (thousandths in the amortisation grid), confidence in hundredths, dates are real Gregorian dates.

## What the proofs found

These promises of the code's own comments fail; each has its exact condition and a failing input.

- *The prepaid part is a share of the expense.* It holds for every period that reaches no further past the year-end
  than a horizon: 3720 months for periods begun by the year-end, 3336 for cover that starts the day after it,
  and fewer with each day of delay, down to 1 (`SplitConserves`). Every one of these horizons is sharp
  (`HorizonIsExact`); `PrepaidWithinExpense` gives the exact condition on the figures. Of six months' cover for
  1,200 bought in advance, 1,600 is called prepaid (`LateStartExceedsTerm`).
- *The amortisation grid conserves the cost.* A row does so exactly when nothing is released or the months
  filled equal the months counted as released (`ConservedIff`); `GridTotal` gives the error of the whole grid. A
  mid-month year of cover in a grid wide enough to show it fills 13 cells for 12 months
  (`MidMonthCoverOvercounts`).
- *Keep the original, void the duplicate.* Of a set of mutual duplicates the report keeps one exactly when the set
  is not deadlocked (`KeepsOneIff`), and one of every subset exactly when no undated copy lies between two
  posted ones in the wrong order (`KeepsOneOfEachIff`). Otherwise it recommends voiding every copy, as for one
  bill entered three times on one day (`ThreeCopiesAllVoided`).
- *The search is the all-pairs comparison, whatever the feed's order.* Which document of a confirmed tie is marked
  original does depend on the order, and nothing else does (`SameFlagIff`, `FeedDecidesOriginal`;
  across contacts `SameCrossFlagIff`).
- *A duplicates-only run leaves other checks alone.* True of every row that was not auto-cleared; an
  auto-cleared row comes back whole exactly when the run flags its document (`ScopedMergeRevives`), and with it
  items a full run had found gone (`StalePrepaymentReturns`).
- *A user's decision is never overwritten.* True of every write that reads the row after the decision. Run stages
  read without a row lock, and an action on one row takes the lock only after its session has loaded the row,
  which by SQLAlchemy's rules a locking `SELECT` does not refresh. What commits between such a read and the
  write is lost exactly when the write changes the row it read, which the row and the inputs tell beforehand
  (`OverlapKeepsDecisionIff`, `OverlapKeepsResolutionIff`; `ResolveIsLost`, `SnoozeLosesResolve`,
  `ReinstateLosesResolve`).
- *A decision lasts until the user restores the row.* Reinstating a contact ends a dismissal as well
  (`ActionUndoesIff`, `ReinstateEndsDismissal`).
- *A snoozed row stays hidden until its time.* Before that time it is in the feed exactly when a stage has stored
  flags of it or a restore has taken effect, and nothing else hides it: a re-score builds `result` afresh and
  drops the snooze (`SnoozeSurvivesIff`, `SnoozedShowsIff`; `SnoozeIsDropped`).

## Model

| member | source | states |
|---|---|---|
| `AuditItems.DropAlreadyCapitalised` | app/modules/healthcheck/tasks.py:868-913 | the loop with its early return drops exactly the capital review flags whose amount is within a pound and whose document date is within 30 days of some registered asset |
| `AuditItems.ApplyHierarchy` | app/modules/healthcheck/tasks.py:922-942 | tagging flags in place, transaction by transaction, gives the list in which every flag is tagged by the winner among its own transaction's types |
| `AuditItems.HierarchyMeans` | app/modules/healthcheck/tasks.py:916-942 | a flag is hidden iff it is payment-tier under a capital or prepayment flag of the same transaction, or prepayment under capital; which type gets the credit; nothing else changes |
| `AuditItems.DemotionsExplained` | app/modules/healthcheck/tasks.py:922-942 | on every transaction, each hidden flag names a type that is still shown there, duplicates never take part, and a non-empty group always shows something |
| `AuditItems.RunGroupsExplained` | app/modules/healthcheck/tasks.py:1013-1016 | dedup before hierarchy never orphans a demotion, for any flags, dates and register |
| `AuditItems.DedupAfterHierarchyOrphans` | app/modules/healthcheck/tasks.py:1013-1016 | the other order does orphan one: a concrete document left showing nothing while hiding a flag |
| `RowInvariant.PersistKeepsRow` | app/modules/healthcheck/tasks.py:1104-1216 | a new, re-scored or merged row shows something, its rule ids and messages are those of the shown items, and all it hides is explained |
| `RowInvariant.StripKeepsRow` | app/modules/healthcheck/tasks.py:1310-1337 | stripping stale duplicates keeps that invariant, both when the row is cleared and when it is rewritten |
| `RowInvariant.IdsTellDuplicates` | app/modules/healthcheck/tasks.py:1316-1325 | deciding by rule ids is deciding by items: the ids hold a duplicate iff the row shows one, nothing else iff it shows nothing else, and the kept ids are those of the kept items |
| `RowInvariant.FeedMatchesStats` | app/modules/healthcheck/repository.py:46-74 | on a consistent row the database filter and the in-memory predicate agree at every time, and each toggle acts as if its mark were absent |
| `StoredVerdicts.TruthyIff` | app/modules/healthcheck/repository.py:46-74 | a mark counts unless it is absent or an empty value |
| `AuditRuns.RunsAreTheirStages` | app/modules/healthcheck/tasks.py:1549-1816 | an undisturbed full run is its five committed stages in order, a duplicates-only run its two; histories interleave single stages with user actions and may overlap them |
| `AuditRuns.StageKeepsRow` | app/modules/healthcheck/tasks.py:1549-1816 | every stage - documents, contacts, accounts, both reconciliations, merge and strip - keeps every row consistent, whatever came before it |
| `AuditRuns.ActKeepsRow` | app/modules/healthcheck/repository.py:307-424 | so does every user action: resolve, dismiss, accept, snooze, restore, and the two contact-defaults actions |
| `AuditRuns.HistoryKeepsRow` | app/modules/healthcheck/tasks.py:1346-1830 | over any interleaving of run stages and actions, including all that commits while a stage or an action is between its read and its write, every row that exists is consistent |
| `AuditSafety.LatestFullRunWins` | app/modules/healthcheck/tasks.py:1772-1816 | after a full run, an undecided row it looked at is in the feed iff the run flagged it, showing exactly the run's non-superseded items; otherwise cleared with its content kept; decided and unevaluated rows are untouched |
| `StoredVerdicts.FullRunLosesNothing` | app/modules/healthcheck/tasks.py:1104-1199 | after a full run the row of a flagged, undecided document holds every flag of its group, each as often as reported: the demoted ones hidden, all others shown; ids and messages are of what is shown, batch and details of the run |
| `StoredVerdicts.FirstInsertLosesNothing` | app/modules/healthcheck/tasks.py:1201-1216 | the same when a duplicates-only run makes the first row of a document |
| `StoredVerdicts.GroupIsReported` | app/modules/healthcheck/tasks.py:916-942 | the group of a document is, tags aside, what the engine reported on it and the register did not explain, in order |
| `StoredVerdicts.ReportedOnIff` | app/modules/healthcheck/tasks.py:868-913 | which flags those are: of the document, and not a capital review within a pound and 30 days of some asset |
| `StoredVerdicts.SectionsLoseNothing` | app/modules/healthcheck/tasks.py:1610-1678 | contact and account flags are shown whole and in order, with ids, kind and batch |
| `StoredVerdicts.MessagesAppend` | app/modules/healthcheck/tasks.py:1109-1110 | the messages of a row are those of its flags in order, parted by bars, the empty ones left out |
| `StoredVerdicts.MessageOfOne` | app/modules/healthcheck/tasks.py:1109-1110 | the message of a single flag is its own |
| `AuditSafety.RunsLeaveDecided` | app/modules/healthcheck/tasks.py:1167-1170 | neither kind of run changes a resolved, dismissed or accepted row at all |
| `AuditSafety.DuplicatesRunKeepsRest` | app/modules/healthcheck/tasks.py:1282-1338 | on a row not cleared before: if it stays visible its other items are unchanged and in order and its duplicates are exactly this run's; without duplicates before or now it is identical; a row it clears showed duplicates alone and hid nothing |
| `AuditSafety.ScopedMergeRevives` | app/modules/healthcheck/tasks.py:1171-1200 | a cleared row comes back with its old other items iff the duplicates-only run flags its document, else it is identical |
| `AuditExamples.StalePrepaymentReturns` | app/modules/healthcheck/tasks.py:1171-1200 | a history from an empty store in which that happens: a prepayment is flagged, found gone and cleared, then shown again by a duplicates-only run |
| `AuditSafety.ReachableRowsConsistent` | app/modules/healthcheck/tasks.py:1104-1199 | every row reachable from an empty store is consistent, also those that dismissing a contact creates |
| `AuditSafety.FeedAndStatsAlwaysAgree` | app/modules/healthcheck/routers.py:1455-1468 | on every reachable row, at every time, the feed and the statistics give the same answer |
| `AuditSafety.ResolvedForever` | app/modules/healthcheck/repository.py:307-333 | once a resolution is committed, the row stays resolved under every interleaving of the run stages and actions that read it from then on, also those that overlap each other |
| `AuditSafety.DecisionLastsUntilUndone` | app/modules/healthcheck/repository.py:335-424 | a committed decision lasts while no restore and no reinstatement of the row is among the actions, overlapping ones included, and while the user leaves the row alone every stage leaves it identical |
| `AuditSafety.ActionUndoesIff` | app/modules/healthcheck/services/contact_defaults_service.py:251-263 | an action undoes a decision iff the row is not resolved and the action is a restore, or a reinstatement of a contact-defaults row that is not accepted |
| `Overlaps.RewritesIff` | app/modules/healthcheck/tasks.py:1156-1338 | which rows a stage changes: undecided ones it stores flags of, last scored by another run; stale ones not yet cleared; and for stripping those with a duplicate among their rule ids |
| `Overlaps.ActionChangesIff` | app/modules/healthcheck/repository.py:307-424 | an action leaves a row as it is iff the row says already all that the action would write, and nothing that it would remove |
| `Overlaps.OverlapKeepsDecisionIff` | app/modules/healthcheck/tasks.py:1156-1202 | a decision committed between the unlocked read of an undecided row, by a stage or an action, and its write survives iff that write does not change the row it read, told from the row and the inputs; otherwise the row is decided only if the write decides it |
| `Overlaps.OverlapKeepsResolutionIff` | app/modules/healthcheck/repository.py:307-443 | likewise a resolution, on any row not resolved yet |
| `AuditExamples.ResolveIsLost` | app/modules/healthcheck/tasks.py:1256-1275 | a history in which a resolution is lost that way: the row ends cleared and not resolved |
| `AuditExamples.SnoozeLosesResolve` | app/modules/healthcheck/services/resolve_service.py:369-402 | a history in which a bill is resolved while another user is snoozing it, and ends snoozed and not resolved |
| `AuditExamples.ReinstateEndsDismissal` | app/modules/healthcheck/services/contact_defaults_service.py:211-263 | a contact dismissed from the defaults list and reinstated is back in the feed, its mark stored as false |
| `AuditExamples.ReinstateLosesResolve` | app/modules/healthcheck/services/contact_defaults_service.py:251-263 | a history in which no run takes part: a contact is resolved while it is being reinstated, and ends in the feed and not resolved |
| `AuditSafety.ClearedUntilFlagged` | app/modules/healthcheck/tasks.py:1237-1276 | one event can bring a cleared row back only if it is, or overlaps, a run stage that stores flags of the id |
| `AuditSafety.ClearedWhileUnflagged` | app/modules/healthcheck/tasks.py:1237-1276 | over whole histories a cleared row stays cleared while no stage flags it |
| `AuditSafety.RestoreUndoesHiding` | app/modules/healthcheck/repository.py:39-43 | restore after any sequence of dismiss, reinstate, accept and snooze gives back exactly the row before them iff it carried no hide keys |
| `StoredVerdicts.RestoreRemovesWhatHides` | app/modules/healthcheck/repository.py:39-43 | a key is removed by restore iff dismissing, accepting or snoozing can write it |
| `StoredVerdicts.DefaultsRowIff` | app/modules/healthcheck/services/contact_defaults_service.py:197-209 | a consistent row is on the contact-defaults list iff it is a contact row showing a flag of that type |
| `StoredVerdicts.NewRowSays` | app/modules/healthcheck/services/contact_defaults_service.py:222-238 | the row made for a contact without one is on the list, dismissed, and flags that contact alone |
| `Snoozing.SnoozeSurvivesIff` | app/modules/healthcheck/tasks.py:1193-1202 | over a history without further snoozes a snooze keeps its time iff no stage stores flags of the undecided row and no restore takes effect, overlapped events that are lost set aside; otherwise it is gone |
| `Snoozing.SnoozedShowsIff` | app/modules/healthcheck/repository.py:46-74 | before its time a snoozed row is in the feed after such a history iff the snooze did not last and the row is neither decided nor cleared |
| `AuditExamples.SnoozeIsDropped` | app/modules/healthcheck/tasks.py:1193-1202 | a history in which a bill snoozed until 100 is flagged again by the next run and in the feed at 50 |
| `TrappedStore.PrepareFlags` | app/modules/healthcheck/tasks.py:1013-1017 | dedup then hierarchy over the engine's flags |
| `TrappedStore.Store.PersistTrapped` | app/modules/healthcheck/tasks.py:1066-1234 | the loop over grouped flags leaves every row as the verdict on its own group says; the counters are the number of flagged known documents and of those not decided |
| `TrappedStore.Store.PersistSection` | app/modules/healthcheck/tasks.py:1610-1678 | contact (and account) flags grouped by id re-score or create exactly the rows of the ids they name |
| `TrappedStore.Store.AutoClearStale` | app/modules/healthcheck/tasks.py:1237-1276 | exactly the stale rows that are neither decided nor cleared get stamped, all others are identical, and the count is their number |
| `TrappedStore.Store.ReconcileStaleDuplicates` | app/modules/healthcheck/tasks.py:1282-1338 | exactly the stale undecided rows with a duplicate are rewritten or cleared, and the count is their number |
| `TrappedStore.Store.FullAudit` | app/modules/healthcheck/tasks.py:1549-1816 | the sequence of steps on the whole store does to each row what the per-row full run says |
| `TrappedStore.Store.DuplicatesAudit` | app/modules/healthcheck/tasks.py:1389-1394 | the same for a duplicates-only run |
| `TrappedStore.Store.MarkResolved` | app/modules/healthcheck/repository.py:307-333 | one row changes as the action says, the others not; a missing row is reported |
| `TrappedStore.Store.MarkDismissed` | app/modules/healthcheck/repository.py:335-355 | likewise |
| `TrappedStore.Store.MarkSnoozed` | app/modules/healthcheck/repository.py:357-382 | likewise |
| `TrappedStore.Store.MarkOk` | app/modules/healthcheck/repository.py:384-405 | likewise |
| `TrappedStore.Store.RestoreRow` | app/modules/healthcheck/repository.py:407-424 | popping the hide keys one by one removes exactly them |
| `TrappedStore.Store.DismissContactDefaults` | app/modules/healthcheck/services/contact_defaults_service.py:211-249 | marks the contact's row, or creates a minimal one, and leaves the others |
| `TrappedStore.Store.ReinstateContactDefaults` | app/modules/healthcheck/services/contact_defaults_service.py:251-263 | one row changes as the action says, the others not; nothing happens without a row of the list |
| `ContactAlias.BuildContactAlias` | app/modules/healthcheck/engine/deterministic.py:53-67 | for any pair list: two ids read the same alias iff a chain of pairs connects them, every alias is the least id of its component, reading twice changes nothing, and the keys are the ids in usable pairs |
| `ContactAlias.IdsAreNamed` | app/modules/healthcheck/engine/deterministic.py:62-66 | the ids known are those some pair of two non-empty ids names |
| `TextOrder.LessIff` | app/modules/healthcheck/engine/deterministic.py:62-66 | ids are compared by their first different character, a shorter one first |
| `ContactAlias.AliasForest.Find` | app/modules/healthcheck/engine/deterministic.py:56-60 | the recursive find with path compression terminates, returns the representative and changes no representative |
| `ContactAlias.AliasForest.Union` | app/modules/healthcheck/engine/deterministic.py:62-66 | linking the larger root under the smaller merges the two classes and no others |
| `PairSweep.Sweep` | app/modules/healthcheck/checks/duplicates.py:125-131 | the sliding window with its early break finds the flags of all pairs of a sorted block |
| `PairSweep.SortKeepsPairs` | app/modules/healthcheck/checks/duplicates.py:125 | sorting a block by date changes neither its pairs nor who comes first in them |
| `PairSweep.BlocksAreAllPairs` | app/modules/healthcheck/checks/duplicates.py:94-103 | the blocks together hold exactly the same-key pairs of the whole list |
| `PairSweep.FlagOfPair` | app/modules/healthcheck/checks/duplicates.py:126-131 | a flag is in the all-pairs report iff some same-key pair within the window earns it |
| `PairSweep.SortIsStable` | app/modules/healthcheck/checks/duplicates.py:285 | sorting by confidence keeps flags of equal confidence in the order found |
| `Duplicates.FindDuplicateDocuments` | app/modules/healthcheck/checks/duplicates.py:73-286 | reports exactly the flags of all pairs, each as often, strongest first |
| `Duplicates.LearnCadence` | app/modules/healthcheck/checks/duplicates.py:106-117 | the dictionary gives each amount the (doubled) median gap of its series, if it has three documents and a positive gap |
| `Duplicates.ConfirmedMeans` | app/modules/healthcheck/checks/duplicates.py:156-179 | when a pair is confirmed, and when recurring, as one condition instead of a waterfall |
| `DuplicateEvidence.ReportedIff` | app/modules/healthcheck/checks/duplicates.py:92-182 | told from the fields: two documents are in the report together iff they have one type and contact, lie within the window, pass the gates, and what they earn reaches the bar |
| `DuplicateEvidence.FlagSays` | app/modules/healthcheck/checks/duplicates.py:193-283 | told from the fields: each flag gives its type, partner, days and what the pair earns, and marks as original the settled copy, else the one posted on an earlier day, else the one dated or fed first |
| `DuplicateEvidence.EarnsIff` | app/modules/healthcheck/checks/duplicates.py:156-179 | the confidence and tier of a pair, as one condition on the fields for each |
| `DuplicateEvidence.RecurringIff` | app/modules/healthcheck/checks/duplicates.py:106-117 | a pair is recurring iff it has one amount, no invoice number in common and is at least three quarters of the median step between the days of its series apart, or 14 days where fewer than three documents or only one day exist |
| `DuplicateEvidence.CadenceIs` | app/modules/healthcheck/checks/duplicates.py:106-117 | the cadence learned is the median step between the different days of the series |
| `DuplicateEvidence.SameDayIsNoRecurrence` | app/modules/healthcheck/checks/duplicates.py:156-160 | documents of one day are never taken for a recurring charge |
| `DuplicateEvidence.LaterStaysRecurring` | app/modules/healthcheck/checks/duplicates.py:156-160 | what is far enough apart to recur stays so at any larger gap |
| `DuplicateEvidence.SameBlockIff` | app/modules/healthcheck/checks/duplicates.py:94-103 | documents are compared iff they have one known type and one contact id or, without ids, one name |
| `DuplicateOrder.PairReportedIff` | app/modules/healthcheck/checks/duplicates.py:92-182 | two documents are in the report together iff they share a contact and type, lie within the window, pass the gates and are admitted at the confidence bar, given band by band |
| `Duplicates.EveryFlagIsMirrored` | app/modules/healthcheck/checks/duplicates.py:238-283 | each flag's mirror is reported too, and of a confirmed pair exactly one side is the original |
| `DuplicateOrder.EachPairOnce` | app/modules/healthcheck/checks/duplicates.py:126-131 | a document and its partner determine the flag, and it occurs once |
| `DuplicateOrder.OrderDoesNotMatter` | app/modules/healthcheck/checks/duplicates.py:92-182 | any other order of the feed gives the same flags up to the original mark |
| `DuplicateOrder.SameFlagIff` | app/modules/healthcheck/checks/duplicates.py:193-200 | a rearranged feed reports the very same flag iff the two documents keep their order, or the flag is not of the high tier, or the pair is not tied |
| `DuplicateOrder.FeedDecidesOriginal` | app/modules/healthcheck/checks/duplicates.py:193-200 | two copies of a bill whose original is whichever comes first in the feed |
| `Originals.TransitiveIff` | app/modules/healthcheck/checks/duplicates.py:193-200 | over any set of documents the original relation is a strict order iff no undated document of the set lies between two posted ones in the wrong order |
| `Originals.UniformPostingIsSafe` | app/modules/healthcheck/checks/duplicates.py:193-200 | in particular when all the documents have a posted date, or none has |
| `Originals.KeepsOneIff` | app/modules/healthcheck/checks/duplicates.py:234-283 | of any set of documents that the report confirms as mutual duplicates, it leaves one and only one unmarked iff the set is not deadlocked: its earliest leading document posted, and an undated one before the one posted first |
| `Originals.ExactlyOneKept` | app/modules/healthcheck/checks/duplicates.py:193-283 | the kept document: all others are reported as its duplicates, it is paid if any is, and no equally paid one was posted before it |
| `Originals.KeepsOneOfEachIff` | app/modules/healthcheck/checks/duplicates.py:193-283 | the report keeps one of every group of such copies iff no undated copy lies between two posted ones in the wrong order |
| `Originals.InversionVoidsAll` | app/modules/healthcheck/checks/duplicates.py:193-283 | with an inversion the report marks all three copies as duplicates, each of the next |
| `Originals.ThreeCopiesAllVoided` | app/modules/healthcheck/checks/duplicates.py:238-283 | one bill entered three times under one date, for which the report does so at every window, the default 0 included |
| `CrossContact.FindCrossContactDuplicates` | app/modules/healthcheck/checks/duplicates.py:326-521 | the amount-blocked search reports exactly the flags of all pairs, strongest first |
| `CrossContact.EachCrossPairOnce` | app/modules/healthcheck/checks/duplicates.py:375-380 | a document and its partner determine the flag, and it occurs once |
| `CrossContact.EveryCrossFlagIsMirrored` | app/modules/healthcheck/checks/duplicates.py:489-518 | each flag's mirror is reported too, with exactly one side the original |
| `CrossContact.CrossOrderDoesNotMatter` | app/modules/healthcheck/checks/duplicates.py:361-437 | with a symmetric name similarity any other order of the feed gives the same flags up to the original mark |
| `CrossContact.SameCrossFlagIff` | app/modules/healthcheck/checks/duplicates.py:489-496 | for any similarity: a rearranged feed reports the very same flag iff the two documents keep their order or differ in date, or both orders score alike and the pair is not tied |
| `CrossContact.ScoreCeilings` | app/modules/healthcheck/checks/duplicates.py:289-317 | the score lies in 28..100, at most 80 (sales) or 95 (bills) with different invoice numbers, at most 58 and so never flagged for different-day pairs with only amount and party |
| `CrossContact.CrossPairReportedIff` | app/modules/healthcheck/checks/duplicates.py:341-437 | two documents are in the report together iff they share type and amount, lie within the window, pass the gates and their uncapped score rounds to 60 or more |
| `CrossEvidence.CrossReportedExactly` | app/modules/healthcheck/checks/duplicates.py:381-437 | told from the fields: two documents are in the report together iff they have one type and amount and two contacts, lie within the window, are not both settled out of scope, have one party, and score 59.5 or more |
| `CrossEvidence.CrossFlagSays` | app/modules/healthcheck/checks/duplicates.py:435-518 | told from the fields: each flag gives its type, partner, days and original as the other report does, and the score of the pair to the nearest whole number |
| `CrossEvidence.OnePartyIff` | app/modules/healthcheck/checks/duplicates.py:388-406 | one VAT number makes one party and two make none; without two numbers the names must be 60 per cent similar |
| `CrossEvidence.ReferenceIsWorth` | app/modules/healthcheck/checks/duplicates.py:408-434 | with all else equal a common reference adds 20 points on a bill and 5 on a sale |
| `CrossEvidence.InvoiceNumberIsWorth` | app/modules/healthcheck/checks/duplicates.py:408-434 | a common invoice number adds 5 points on a bill and 20 on a sale |
| `CrossEvidence.DescriptionIsWorth` | app/modules/healthcheck/checks/duplicates.py:412-434 | a common description adds 10 |
| `CrossEvidence.SameDayIsWorth` | app/modules/healthcheck/checks/duplicates.py:428 | one day adds 7 over two within the window |
| `CrossEvidence.FloorOfScore` | app/modules/healthcheck/checks/duplicates.py:426-428 | with only the amount and the party in common the score is 28 and 30 for the party |
| `CrossEvidence.PartyIsWorth` | app/modules/healthcheck/checks/duplicates.py:427 | a closer party adds 30 points times the difference |
| `CrossEvidence.CeilingsAreReached` | app/modules/healthcheck/checks/duplicates.py:289-297 | the ceilings are attained: 80 for a sale and 95 for a bill that differ in the invoice number alone, 100 with it |
| `CrossContact.CrossFlagSource` | app/modules/healthcheck/checks/duplicates.py:381-406 | behind each flag are two documents of different contacts, same type and amount, within the window, never with two different VAT numbers |
| `CrossContact.PassesAreDisjoint` | app/modules/healthcheck/checks/duplicates.py:381-383 | the two passes never report the same pair |
| `BankJoin.FindDirectSettlements` | app/modules/healthcheck/checks/bank.py:52-110 | the indexed join gives the nested scan's flags in the same order |
| `BankJoin.FlaggedIff` | app/modules/healthcheck/checks/bank.py:62-79 | a document is flagged iff it is open, has a balance and a contact, and some bank item of the right type and contact falls 0..window days later within 0.01 |
| `BankJoin.FlaggedExactly` | app/modules/healthcheck/checks/bank.py:62-79 | the same told from the fields, with the balance as due, or as amount less what was paid and allocated |
| `BankJoin.SettlementSays` | app/modules/healthcheck/checks/bank.py:80-109 | each flag names an open document and the first bank item that pays it, with both amounts and the days between |
| `BankJoin.FlaggedOnce` | app/modules/healthcheck/checks/bank.py:109 | no document is flagged twice |
| `BankJoin.FirstSettlingIsFirst` | app/modules/healthcheck/checks/bank.py:74-79 | the item used is the first settling one in feed order |
| `Calendar.MonthsAbut` | app/modules/healthcheck/checks/prepayments.py:55-56 | day numbers leave no gap and no overlap between months |
| `Calendar.DayNumberOrder` | app/modules/healthcheck/checks/prepayments.py:155 | comparing dates is comparing day numbers |
| `Calendar.FyMonthEndsConsecutive` | app/modules/healthcheck/checks/prepayment_schedule.py:90-94 | the columns are consecutive month ends finishing in the year-end's own month, for any year-end |
| `Calendar.YearEndForIsNext` | app/modules/healthcheck/checks/prepayments.py:78-82 | the first year-end on or after its date, at most 365 days away, for any month and day including 29 February |
| `Calendar.NextYearEndIs` | app/modules/healthcheck/checks/prepayments.py:78-82 | and it is the only such year-end |
| `Calendar.AccrualYearEndIsLast` | app/modules/healthcheck/tasks.py:773-779 | the last year-end on or before its date, at most 365 days back |
| `Calendar.YearEndsAdjacent` | app/modules/healthcheck/routers.py:1574-1576 | the two coincide iff the date is a year-end and are otherwise one year apart |
| `Terms.NoTies` | app/modules/healthcheck/checks/prepayments.py:161 | days over 30.44 is never halfway between integers, so the rounding mode does not matter |
| `Rounding.HalfEvenIs` | app/modules/healthcheck/checks/prepayments.py:161 | quantising gives the nearest whole unit and of two the even one |
| `Rounding.HalfUpIs` | app/modules/healthcheck/checks/prepayment_schedule.py:152 | rounding half up gives the nearest and of two the one further from zero |
| `Terms.MonthsAfterWithinTerm` | app/modules/healthcheck/checks/prepayments.py:85-95 | for a period that starts any number of days after the year-end, or by it, the months past the year-end never outnumber the term, up to the horizon of that delay |
| `Terms.MonthsAfterIsGreatest` | app/modules/healthcheck/checks/prepayments.py:85-95 | the months after the year-end are the greatest k whose k-th month after it is over by the end of the period, save that a year-end that is no month end waits for its own day |
| `Terms.TotalMonthsIs` | app/modules/healthcheck/checks/prepayments.py:158-161 | the term is the nearest whole number of 30.44-day months, at least one |
| `Terms.HorizonIsExact` | app/modules/healthcheck/checks/prepayments.py:158-161 | for every delay, the claim holds for all periods that start so late or earlier and have up to a limit of months past the year-end iff the limit is at most the horizon of that delay: 3720 for none, 3336 for one day, down to 1 |
| `Prepayments.LateStartExceedsTerm` | app/modules/healthcheck/checks/prepayments.py:154-164 | an expense of 1,200.00 for a period starting after the year-end: 1,600.00 is called prepaid and this year's share is negative |
| `Prepayments.PrepaidWithinExpense` | app/modules/healthcheck/checks/prepayments.py:158-164 | exactly when the prepaid figure of a split stays within the expense |
| `Prepayments.SplitConserves` | app/modules/healthcheck/checks/prepayments.py:161-164 | up to the horizon of the period's delay, prepaid and this year's expense are both shares of the amount and add up to it |
| `Prepayments.ReleaseSchedule` | app/modules/healthcheck/checks/prepayments.py:98-116 | the moving cursor, which clamps at every step, builds the table counted from the year-end directly |
| `Prepayments.ReleaseMonths` | app/modules/healthcheck/checks/prepayments.py:106-107 | the table's months are the consecutive month ends after the year-end |
| `Prepayments.TableReleasesShare` | app/modules/healthcheck/checks/prepayments.py:98-116 | the remaining balance stays within the prepaid share, never grows or goes negative and ends at nothing, and the instalments miss the share by at most half a penny each plus half a penny |
| `PrepaymentScan.FindPrepayments` | app/modules/healthcheck/checks/prepayments.py:119-207 | the nested loops with their skips give the flags of the reviewable lines, in order |
| `PrepaymentScan.SourceOfFlag` | app/modules/healthcheck/checks/prepayments.py:132-160 | a flag is reported iff some line earns it against the first year-end on or after its document's date |
| `PrepaymentScan.FlagIff` | app/modules/healthcheck/checks/prepayments.py:119-207 | told from the ledger: the flags are those of the lines of bills on expense accounts, above the threshold either way, whose period runs a month or more past the first year-end on or after the date, with months, share, instalment and schedule as split |
| `PrepaymentScan.FlaggedSharesAreSound` | app/modules/healthcheck/checks/prepayments.py:154-164 | every flag within the horizon of its period, cover starting the day after the year-end included, splits an expense above the threshold without loss; the release ends with nothing remaining, and its instalments add up to the prepaid share within half a penny each plus half a penny |
| `PrepaymentScan.KeywordCover` | app/modules/healthcheck/checks/prepayments.py:73-74 | a keyword period counts as twelve months, carries over at most twelve, and always runs past the year-end, save from 29 February under a 28 February year-end |
| `PrepaymentSchedule.BuildSchedule` | app/modules/healthcheck/checks/prepayment_schedule.py:104-198 | one row per item; column and balance totals, updated in place, are the sums over the rows and together the costs plus what the items overstate; and the ledger check |
| `ScheduleRows.RowMeans` | app/modules/healthcheck/checks/prepayment_schedule.py:131-172 | told from dates and amount: a dated item has an even share in each grid month of its period and carries forward what the begun months of its term have not used; an undated one keeps its amount |
| `ScheduleRows.ReleasedAreBegun` | app/modules/healthcheck/checks/prepayment_schedule.py:97-101 | the months released are the months of the term that have begun by the year-end |
| `ScheduleRows.ExpiredLeavesRounding` | app/modules/healthcheck/checks/prepayment_schedule.py:97-101 | once the last month of the term has begun at most half a thousandth a month is left, and the balance never changes again |
| `ScheduleRows.NotBegunKeepsAll` | app/modules/healthcheck/checks/prepayment_schedule.py:97-101 | until the term begins the whole cost is carried forward |
| `PrepaymentSchedule.ConservedIff` | app/modules/healthcheck/checks/prepayment_schedule.py:154-165 | amount = cells + carry-forward iff nothing is released or the columns filled are the months counted as released |
| `PrepaymentSchedule.ConservedWithinYear` | app/modules/healthcheck/checks/prepayment_schedule.py:97-165 | hence exactly, for a term that starts inside the year, reaches the year-end's month and has not run out |
| `PrepaymentSchedule.BalanceRollsForward` | app/modules/healthcheck/checks/prepayment_schedule.py:163-165 | from year-end to year-end the balance falls by exactly the instalments shown between them |
| `PrepaymentSchedule.FullReleaseLeavesRounding` | app/modules/healthcheck/checks/prepayment_schedule.py:152-164 | after full release at most half a thousandth a month is left |
| `PrepaymentSchedule.MidMonthCoverOvercounts` | app/modules/healthcheck/checks/prepayment_schedule.py:152-164 | a cost of 1,200 from mid-month to mid-month in a wide grid: 1,300 in the cells and nothing carried forward |
| `PrepaymentSchedule.GridTotal` | app/modules/healthcheck/checks/prepayment_schedule.py:120-176 | over any items, column totals plus balance total = costs + one instalment for each column filled but not counted as released |
| `PrepaymentSchedule.GridConserves` | app/modules/healthcheck/checks/prepayment_schedule.py:120-176 | hence the grid conserves the costs when every item meets the condition of its row |
| `MissingAccruals.Activity.Scan` | app/modules/healthcheck/checks/missing_accrual.py:55-72 | the dictionaries filled line by line say, per account and column, exactly what was spent, whether anything was, and what came after the year-end |
| `MissingAccruals.ColumnIsFyMonth` | app/modules/healthcheck/checks/missing_accrual.py:51-53 | the column index of a date is its place among the year's month ends |
| `MissingAccruals.JudgeAccount` | app/modules/healthcheck/checks/missing_accrual.py:109-142 | the nested gap loops terminate and report the runs and the final month |
| `MissingAccruals.EachMissingMonthOnce` | app/modules/healthcheck/checks/missing_accrual.py:111-131 | every missing month lies in exactly one run, no month with cost in any |
| `MissingAccruals.AllMaximalRuns` | app/modules/healthcheck/checks/missing_accrual.py:111-131 | every maximal run of missing months is reported |
| `MissingAccruals.MissingMonthsReported` | app/modules/healthcheck/checks/missing_accrual.py:111-142 | a month is in a finding iff it is missing and either the account is mostly present or it is the final month |
| `AccrualEvidence.MonthReportedExactly` | app/modules/healthcheck/checks/missing_accrual.py:55-142 | told from the ledger lines: a month of an account is reported iff no line debits the account in it and either enough other months have such a line, or the account is regular by name and the month is the last |
| `AccrualEvidence.FindingSays` | app/modules/healthcheck/checks/missing_accrual.py:85-142 | each finding gives the number of months with cost, their average, and for the last month a cut-off iff the account is debited in the month after the year-end |
| `AccrualEvidence.CountIsSize` | app/modules/healthcheck/checks/missing_accrual.py:85 | the months present are counted, not the missing ones |
| `AccrualEvidence.AverageIs` | app/modules/healthcheck/checks/missing_accrual.py:90-91 | the average is the nearest penny to the year's total over that count, the even one of two |
| `AccrualEvidence.AverageBetween` | app/modules/healthcheck/checks/missing_accrual.py:90-91 | it lies between the least and the greatest of the months present |
| `AccrualEvidence.SpentIff` | app/modules/healthcheck/checks/missing_accrual.py:55-72 | something is spent in a month iff some line debits the account in it |
| `AccrualEvidence.SpentAdds` | app/modules/healthcheck/checks/missing_accrual.py:55-72 | what is spent adds up over the ledger |
| `AccrualEvidence.SpentOfLine` | app/modules/healthcheck/checks/missing_accrual.py:55-72 | and one line counts with its amount, in its own month and on its own account, if it is a debit there |
| `MissingAccruals.FindingsDisjoint` | app/modules/healthcheck/checks/missing_accrual.py:111-142 | findings follow each other without overlap |
| `MissingAccruals.FindingKinds` | app/modules/healthcheck/checks/missing_accrual.py:109-142 | interim findings only for mostly present accounts; large gap iff two months or more; the final month alone, as a cut-off iff cost follows the year-end |
| `MissingAccruals.FindMissingAccruals` | app/modules/healthcheck/checks/missing_accrual.py:39-143 | the accounts looked at are exactly the regular-by-name ones and those with cost, in code order, each judged on what was really spent |
| `AmountOutliers.FindAmountOutliers` | app/modules/healthcheck/checks/coding.py:190-217 | the candidates contact by contact, the contacts in order of first appearance, each with the usual amount, account and tax code of its contact |
| `AmountOutliers.DominantMeans` | app/modules/healthcheck/engine/deterministic.py:280-282 | the usual value is a present one that no other present value outnumbers, and is absent iff no value is present |
| `OutlierEvidence.CandidateIff` | app/modules/healthcheck/checks/coding.py:190-217 | told from the documents: one is a candidate iff it is positive, has enough peers, reaches the multiple of their median and the minimum; it gives their number, median and usual account and tax code |
| `OutlierEvidence.SameGroupIff` | app/modules/healthcheck/checks/coding.py:190-200 | two positive documents are peers iff their merged contact ids agree or, without ids, their names |
| `OutlierEvidence.FirstOfTies` | app/modules/healthcheck/engine/deterministic.py:280-282 | of equally common values the usual one appears first |
| `Median.MedianIs` | app/modules/healthcheck/checks/coding.py:205 | the median is the middle of any ascending arrangement |
| `AmountOutliers.AtMostHalfAreOutliers` | app/modules/healthcheck/checks/coding.py:202-217 | with a multiple above one, at most half of a contact's positive transactions |
| `AmountOutliers.HalfAboveMedian` | app/modules/healthcheck/checks/coding.py:205 | no more than half of any list lies above its median |
| `UnusualPayments.FindUnusualPayments` | app/modules/healthcheck/checks/unusual_payments.py:53-116 | both passes with their shared set of flagged ids and early break |
| `PaymentEvidence.ReasonIff` | app/modules/healthcheck/checks/unusual_payments.py:53-95 | told from the documents: a payment is reported for its looks iff its description is unclear - as an unidentified supplier when it is the only payment to it - or it is large and to a supplier seldom paid; with its amount and account |
| `PaymentEvidence.LargeIff` | app/modules/healthcheck/checks/unusual_payments.py:97-116 | and as large iff nothing else is reported of it and some line is far above the average of its account's payment lines; with the amount and account of the first such line |
| `PaymentEvidence.CountOfIs` | app/modules/healthcheck/checks/unusual_payments.py:53-55 | payments are counted by supplier: by contact id, else by name |
| `UnusualPayments.LargeFindingsBounded` | app/modules/healthcheck/checks/unusual_payments.py:97-116 | at most n / multiple transactions are flagged large for an account with n payment lines, whatever the amounts |

## Left out

- HTTP routes, sessions, job dispatch, Xero calls, email, migrations and the front end: only the state changes they carry are modelled. A run commits stage by stage; actions and other stages fall between stages, or between the read and the commit of a stage or an action.
- Refusals of the services (already resolved, no supported field, credit note not allocated): an action is what the repository does once the service calls it.
- Stages that fail half-way and roll back.
- A second row for one id: two writers that each find no row both insert one, as does dismissing contact defaults for a contact whose row lacks that rule; a history follows the row that was there, and the creation of the other one is not an event of it.
- The rules engine's orchestration, model passes and failing-open batches: a run takes any list of flags; a full run any types, a duplicates-only run duplicate types, which is what disabling every other rule leaves.
- Row identity: one blocked row per document id (the source reads `limit(1)`), ids in canonical form; a document id, a contact id and an account id never coincide (`OneSection` in `LatestFullRunWins`).
- The columns `error_msgs` and `ran_at`, the list sent for enrichment, and message texts: they mirror or decorate `result` and are never read by these steps.
- A row whose `result` is null, and flags without an issue type: the runs modelled never write them.
- Text normalisation: text fields are taken as already stripped and in the case the checks compare.
- Text recognition: periods read from descriptions, generic descriptions, regular account names, name similarity (any function into the unit interval) and settings parsing are inputs.
- Float and 28-digit decimal noise: averages, medians, multiples and the cross-contact score are exact; rounding is a function within half a unit. Items of the amortisation grid have at most three decimals.
- Python's year range: years are unbounded integers.
- `_build_contact_alias` on pairs that are not lists of texts: a pair is a list of texts of any length.
- `_find_direct_settlement_mismatches` returns early on an empty index: the model runs the loop, which then finds nothing.
- Single-branch checks (future-dated, unapproved, missing tax and the like): each would add a case split.
- Calendar.YearEndForIsNext: a configured month or day outside 1..12 and 1..31 is replaced by 31 December in the routers and raises in the checks; neither default is modelled.
