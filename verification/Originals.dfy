/** The "likely original" mark over sets of duplicates: when the report keeps exactly one document, and when
    it recommends voiding every copy. */
module Originals {
  import opened Wrappers
  import opened Documents
  import opened PairSweep
  import opened Duplicates
  import opened DuplicateOrder

  // ----- Which of two documents is the original --------------------------------------------------

  predicate Among(txs: seq<Doc>, docs: set<nat>) {
    forall i :: i in docs ==> i < |txs|
  }

  /** Document `i` comes before document `j` when a block is sorted by date. */
  predicate Earlier(txs: seq<Doc>, i: nat, j: nat)
    requires i < |txs| && j < |txs|
  {
    txs[i].day < txs[j].day || (txs[i].day == txs[j].day && i < j)
  }

  /** Document `i` is the original of its pair with document `j`. */
  predicate Beats(txs: seq<Doc>, i: nat, j: nat)
    requires i < |txs| && j < |txs|
  {
    if Earlier(txs, i, j) then FirstIsOriginal(txs[i], txs[j]) else i != j && !FirstIsOriginal(txs[j], txs[i])
  }

  lemma ExactlyOneBeats(txs: seq<Doc>, i: nat, j: nat)
    requires i < |txs| && j < |txs| && i != j
    ensures Beats(txs, i, j) != Beats(txs, j, i)
  {
    hide FirstIsOriginal;
  }

  predicate BothPosted(a: Doc, b: Doc) {
    a.postedDay.Some? && b.postedDay.Some?
  }

  /** A paid copy is never voided for an unpaid one, nor an equally paid one for one posted later. */
  lemma BeatsMeans(txs: seq<Doc>, i: nat, j: nat)
    requires i < |txs| && j < |txs| && Beats(txs, i, j)
    ensures IsPaid(txs[j]) ==> IsPaid(txs[i])
    ensures IsPaid(txs[i]) == IsPaid(txs[j]) && BothPosted(txs[i], txs[j]) ==>
        txs[i].postedDay.value <= txs[j].postedDay.value
  {
    hide IsPaid;
  }

  ghost predicate Transitive(txs: seq<Doc>, docs: set<nat>)
    requires Among(txs, docs)
  {
    forall i, j, k {:trigger Beats(txs, i, j), Beats(txs, j, k)} ::
      i in docs && j in docs && k in docs && Beats(txs, i, j) && Beats(txs, j, k) ==> Beats(txs, i, k)
  }

  /** Between two posted documents in the wrong order lies one with no posted date, all three being
      equally paid or unpaid. */
  predicate UndatedBetween(txs: seq<Doc>, i: nat, j: nat, k: nat) {
    && i < |txs| && j < |txs| && k < |txs| && Earlier(txs, i, j) && Earlier(txs, j, k)
    && IsPaid(txs[i]) == IsPaid(txs[j]) == IsPaid(txs[k])
    && txs[i].postedDay.Some? && txs[j].postedDay.None? && txs[k].postedDay.Some?
    && txs[k].postedDay.value < txs[i].postedDay.value
  }

  ghost predicate HasInversion(txs: seq<Doc>, docs: set<nat>) {
    exists i, j, k :: i in docs && j in docs && k in docs && UndatedBetween(txs, i, j, k)
  }

  lemma CircleIsInversion(txs: seq<Doc>, i: nat, j: nat, k: nat)
    requires i < |txs| && j < |txs| && k < |txs|
    requires Beats(txs, i, j) && Beats(txs, j, k) && Beats(txs, k, i)
    ensures UndatedBetween(txs, i, j, k) || UndatedBetween(txs, j, k, i) || UndatedBetween(txs, k, i, j)
  {
    hide IsPaid;
  }

  lemma InversionIsCircle(txs: seq<Doc>, i: nat, j: nat, k: nat)
    requires UndatedBetween(txs, i, j, k)
    ensures Beats(txs, i, j) && Beats(txs, j, k) && Beats(txs, k, i) && !Beats(txs, i, k)
  {
    hide IsPaid;
  }

  /** Over any set of documents, the original relation is a strict total order exactly when no undated
      document of the set sits between two posted ones in the wrong order. */
  lemma TransitiveIff(txs: seq<Doc>, docs: set<nat>)
    requires Among(txs, docs)
    ensures Transitive(txs, docs) <==> !HasInversion(txs, docs)
  {
    hide Beats, UndatedBetween;
    if HasInversion(txs, docs) {
      var i, j, k :| i in docs && j in docs && k in docs && UndatedBetween(txs, i, j, k);
      InversionIsCircle(txs, i, j, k);
    } else {
      forall i, j, k | i in docs && j in docs && k in docs && Beats(txs, i, j) && Beats(txs, j, k)
        ensures Beats(txs, i, k)
      {
        StepsCompose(txs, docs, i, j, k);
      }
    }
  }

  lemma StepsCompose(txs: seq<Doc>, docs: set<nat>, i: nat, j: nat, k: nat)
    requires Among(txs, docs) && i in docs && j in docs && k in docs && !HasInversion(txs, docs)
    requires Beats(txs, i, j) && Beats(txs, j, k)
    ensures Beats(txs, i, k)
  {
    assert i != j && j != k;
    hide Beats, UndatedBetween;
    ExactlyOneBeats(txs, i, j);
    if i != k && !Beats(txs, i, k) {
      ExactlyOneBeats(txs, i, k);
      CircleIsInversion(txs, i, j, k);
    }
  }

  /** Documents that all have a posted date, or all lack one, are never circular. */
  lemma UniformPostingIsSafe(txs: seq<Doc>, docs: set<nat>)
    requires Among(txs, docs)
    requires (forall i :: i in docs ==> txs[i].postedDay.Some?) || (forall i :: i in docs ==> txs[i].postedDay.None?)
    ensures Transitive(txs, docs)
  {
    TransitiveIff(txs, docs);
  }

  // ----- When one document beats all the others --------------------------------------------------

  /** Only these can win: the paid documents of the set, or all of them if none is paid. */
  predicate Leading(txs: seq<Doc>, docs: set<nat>, i: nat)
    requires Among(txs, docs)
  {
    i in docs && (IsPaid(txs[i]) || forall j :: j in docs ==> !IsPaid(txs[j]))
  }

  /** Posted first; documents posted on one day in date order. */
  predicate PostedBefore(txs: seq<Doc>, i: nat, j: nat)
    requires i < |txs| && j < |txs| && BothPosted(txs[i], txs[j])
  {
    txs[i].postedDay.value < txs[j].postedDay.value
    || (txs[i].postedDay == txs[j].postedDay && Earlier(txs, i, j))
  }

  ghost predicate Champion(txs: seq<Doc>, docs: set<nat>, k: nat)
    requires Among(txs, docs)
  {
    k in docs && forall i :: i in docs && i != k ==> Beats(txs, k, i)
  }

  /** Among the leading documents the earliest is posted, and an undated one comes before the one posted
      first. */
  ghost predicate Deadlock(txs: seq<Doc>, docs: set<nat>, first: nat, undated: nat, posted: nat)
    requires Among(txs, docs)
  {
    && Leading(txs, docs, first) && Leading(txs, docs, undated) && Leading(txs, docs, posted)
    && UndatedBetween(txs, first, undated, posted)
    && (forall x: nat :: Leading(txs, docs, x) && x != first ==> Earlier(txs, first, x))
    && (forall x: nat ::
          Leading(txs, docs, x) && x != posted && txs[x].postedDay.Some? ==> PostedBefore(txs, posted, x))
  }

  ghost predicate Deadlocked(txs: seq<Doc>, docs: set<nat>)
    requires Among(txs, docs)
  {
    exists first, undated, posted :: Deadlock(txs, docs, first, undated, posted)
  }

  lemma {:induction false} EarliestExists(txs: seq<Doc>, docs: set<nat>) returns (e: nat)
    requires Among(txs, docs) && docs != {}
    ensures e in docs && forall i :: i in docs && i != e ==> Earlier(txs, e, i)
  {
    var d :| d in docs;
    if docs == {d} {
      e := d;
    } else {
      assert docs - {d} != {};
      var rest := EarliestExists(txs, docs - {d});
      e := if Earlier(txs, d, rest) then d else rest;
      forall i | i in docs && i != e
        ensures Earlier(txs, e, i)
      {
        assert i != d ==> i in docs - {d};
      }
    }
  }

  lemma {:induction false} FirstPostedExists(txs: seq<Doc>, docs: set<nat>) returns (p: nat)
    requires Among(txs, docs) && docs != {} && forall i :: i in docs ==> txs[i].postedDay.Some?
    ensures p in docs && forall i :: i in docs && i != p ==> PostedBefore(txs, p, i)
  {
    var d :| d in docs;
    if docs == {d} {
      p := d;
    } else {
      assert docs - {d} != {};
      var rest := FirstPostedExists(txs, docs - {d});
      p := if PostedBefore(txs, d, rest) then d else rest;
      forall i | i in docs && i != p
        ensures PostedBefore(txs, p, i)
      {
        assert i != d ==> i in docs - {d};
      }
    }
  }

  /** How two equally paid documents compare. */
  lemma EquallyPaid(txs: seq<Doc>, i: nat, j: nat)
    requires i < |txs| && j < |txs| && i != j && IsPaid(txs[i]) == IsPaid(txs[j])
    ensures if BothPosted(txs[i], txs[j]) then Beats(txs, i, j) <==> PostedBefore(txs, i, j)
            else Beats(txs, i, j) <==> Earlier(txs, i, j)
  {
    hide IsPaid;
  }

  lemma LeadingEquallyPaid(txs: seq<Doc>, docs: set<nat>, i: nat, j: nat)
    requires Among(txs, docs) && Leading(txs, docs, i) && j in docs
    ensures Leading(txs, docs, j) ==> IsPaid(txs[i]) == IsPaid(txs[j])
    ensures !Leading(txs, docs, j) ==> Beats(txs, i, j)
  {
    hide IsPaid;
  }

  /** In a deadlock every document is beaten by another. */
  lemma DeadlockBeatsAll(txs: seq<Doc>, docs: set<nat>, first: nat, undated: nat, posted: nat, x: nat)
    returns (rival: nat)
    requires Among(txs, docs) && Deadlock(txs, docs, first, undated, posted) && x in docs
    ensures rival in docs && rival != x && Beats(txs, rival, x)
  {
    LeadingEquallyPaid(txs, docs, first, x);
    hide Beats, IsPaid;
    if !Leading(txs, docs, x) {
      rival := first;
    } else {
      rival := if x == posted then undated else if txs[x].postedDay.Some? then posted else first;
      LeadingEquallyPaid(txs, docs, rival, x);
      EquallyPaid(txs, rival, x);
    }
  }

  lemma SomeoneLeads(txs: seq<Doc>, docs: set<nat>) returns (i: nat)
    requires Among(txs, docs) && docs != {}
    ensures Leading(txs, docs, i)
  {
    hide IsPaid;
    if p :| p in docs && IsPaid(txs[p]) {
      i := p;
    } else {
      i :| i in docs;
    }
  }

  /** What beats the leading documents beats them all. */
  lemma LeaderBeatsRest(txs: seq<Doc>, docs: set<nat>, k: nat)
    requires Among(txs, docs) && Leading(txs, docs, k)
    requires forall i :: Leading(txs, docs, i) && i != k ==> Beats(txs, k, i)
    ensures Champion(txs, docs, k)
  {
    hide Beats, Leading;
    LeadingIsAmong(txs, docs, k);
    forall i | i in docs && i != k
      ensures Beats(txs, k, i)
    {
      LeadingEquallyPaid(txs, docs, k, i);
    }
  }

  lemma LeadingIsAmong(txs: seq<Doc>, docs: set<nat>, k: nat)
    requires Among(txs, docs) && Leading(txs, docs, k)
    ensures k in docs
  {}

  /** `e` leads by date and `p` by posting. */
  ghost predicate Frontrunners(txs: seq<Doc>, docs: set<nat>, e: nat, p: nat)
    requires Among(txs, docs)
  {
    && Leading(txs, docs, e) && Leading(txs, docs, p) && BothPosted(txs[e], txs[p])
    && (forall x: nat :: Leading(txs, docs, x) && x != e ==> Earlier(txs, e, x))
    && (forall x: nat :: Leading(txs, docs, x) && x != p && txs[x].postedDay.Some? ==> PostedBefore(txs, p, x))
  }

  lemma UndatedFirstDeadlocks(txs: seq<Doc>, docs: set<nat>, e: nat, p: nat, x: nat)
    requires Among(txs, docs) && Frontrunners(txs, docs, e, p)
    requires Leading(txs, docs, x) && x != p && txs[x].postedDay.None? && !Earlier(txs, p, x)
    ensures Deadlocked(txs, docs)
  {
    LeadingEquallyPaid(txs, docs, e, x);
    LeadingEquallyPaid(txs, docs, e, p);
    hide IsPaid, Leading;
    assert UndatedBetween(txs, e, x, p);
    assert Deadlock(txs, docs, e, x, p);
  }

  lemma FirstPostedWins(txs: seq<Doc>, docs: set<nat>, e: nat, p: nat)
    requires Among(txs, docs) && !Deadlocked(txs, docs) && Frontrunners(txs, docs, e, p)
    ensures Champion(txs, docs, p)
  {
    forall x: nat | Leading(txs, docs, x) && x != p
      ensures Beats(txs, p, x)
    {
      LeadingEquallyPaid(txs, docs, p, x);
      EquallyPaid(txs, p, x);
      hide Beats, IsPaid, Leading, Earlier, PostedBefore, Deadlocked;
      if txs[x].postedDay.None? && !Earlier(txs, p, x) {
        UndatedFirstDeadlocks(txs, docs, e, p, x);
      }
    }
    LeaderBeatsRest(txs, docs, p);
  }

  lemma FindChampion(txs: seq<Doc>, docs: set<nat>) returns (k: nat)
    requires Among(txs, docs) && docs != {} && !Deadlocked(txs, docs)
    ensures Champion(txs, docs, k)
  {
    var someone := SomeoneLeads(txs, docs);
    LeadingIsAmong(txs, docs, someone);
    var leaders := set i | i in docs && Leading(txs, docs, i);
    assert someone in leaders;
    var e := EarliestExists(txs, leaders);
    if txs[e].postedDay.Some? {
      var dated := set i | i in leaders && txs[i].postedDay.Some?;
      assert e in dated;
      var p := FirstPostedExists(txs, dated);
      k := p;
      hide Earlier, PostedBefore, Deadlocked, Champion;
      LeadersAre(txs, docs, leaders);
      FirstPostedWins(txs, docs, e, p);
    } else {
      k := e;
      hide Champion;
      EarliestUndatedWins(txs, docs, leaders, e);
    }
  }

  lemma LeadersAre(txs: seq<Doc>, docs: set<nat>, leaders: set<nat>)
    requires Among(txs, docs) && leaders == set i | i in docs && Leading(txs, docs, i)
    ensures forall i: nat :: Leading(txs, docs, i) <==> i in leaders
  {}

  lemma EarliestUndatedWins(txs: seq<Doc>, docs: set<nat>, leaders: set<nat>, e: nat)
    requires Among(txs, docs) && leaders == set i | i in docs && Leading(txs, docs, i)
    requires e in leaders && txs[e].postedDay.None? && forall i :: i in leaders && i != e ==> Earlier(txs, e, i)
    ensures Champion(txs, docs, e)
  {
    LeadersAre(txs, docs, leaders);
    forall i: nat | Leading(txs, docs, i) && i != e
      ensures Beats(txs, e, i)
    {
      LeadingEquallyPaid(txs, docs, e, i);
      EquallyPaid(txs, e, i);
    }
    LeaderBeatsRest(txs, docs, e);
  }

  /** One document of the set beats all the others exactly when its leading documents are not deadlocked. */
  lemma ChampionIff(txs: seq<Doc>, docs: set<nat>)
    requires Among(txs, docs) && docs != {}
    ensures (exists k :: Champion(txs, docs, k)) <==> !Deadlocked(txs, docs)
  {
    if Deadlocked(txs, docs) {
      var a, b, c :| Deadlock(txs, docs, a, b, c);
      forall k: nat | k in docs
        ensures !Champion(txs, docs, k)
      {
        var better := DeadlockBeatsAll(txs, docs, a, b, c, k);
        ExactlyOneBeats(txs, better, k);
      }
    } else {
      var k := FindChampion(txs, docs);
    }
  }

  // ----- The marks in the report ---------------------------------------------------------------

  /** The report says of document `i` that it is the duplicate of document `j`. */
  ghost predicate MarkedDuplicate(txs: seq<Doc>, s: Settings, i: nat, j: nat)
    requires i < |txs| && j < |txs|
  {
    exists f :: f in AllDuplicates(txs, s)
      && f.docId == txs[i].id && f.duplicateOf == txs[j].id && f.likelyOriginal == Some(false)
  }

  /** The report confirms the pair: one block, within the date window, past the gates and the bar. */
  predicate Confirmed(txs: seq<Doc>, s: Settings, i: nat, j: nat)
    requires i < |txs| && j < |txs|
  {
    && SameBlock(BlockKey, txs[i], txs[j]) && txs[j].day - txs[i].day <= s.window
    && PassesGates(txs[i], txs[j], s)
    && Judge(txs[i], txs[j], CadenceFor(txs, txs[i])).1 == High
    && Judge(txs[i], txs[j], CadenceFor(txs, txs[i])).0 >= s.minConfidence
  }

  /** All the documents of the set are confirmed duplicates of each other. */
  ghost predicate MutualDuplicates(txs: seq<Doc>, s: Settings, docs: set<nat>) {
    && Among(txs, docs)
    && forall i, j :: i in docs && j in docs && Earlier(txs, i, j) ==> Confirmed(txs, s, i, j)
  }

  /** The two flags that the report holds for a confirmed pair. */
  lemma ConfirmedFlags(txs: seq<Doc>, s: Settings, i: nat, j: nat) returns (fs: seq<Flag>)
    requires i < |txs| && j < |txs| && Earlier(txs, i, j) && Confirmed(txs, s, i, j)
    ensures fs == PairFlags(s.window, ReferenceCheck(txs, s), txs[if i < j then i else j], txs[if i < j then j else i])
    ensures |fs| == 2 && fs[0].likelyOriginal == Some(true) && fs[1].likelyOriginal == Some(false)
    ensures if Beats(txs, i, j) then fs[1].docId == txs[j].id && fs[1].duplicateOf == txs[i].id
            else fs[1].docId == txs[i].id && fs[1].duplicateOf == txs[j].id
  {
    hide Judge, PassesGates, FirstIsOriginal, CadenceFor, DuplicateTypeOf, BlockKey;
    fs := CheckPair(txs[i], txs[j], CadenceFor(txs, txs[i]), s);
  }

  /** In the report, of two confirmed duplicates exactly the one that is beaten is marked. */
  lemma MarkFollowsBeats(txs: seq<Doc>, s: Settings, i: nat, j: nat)
    requires UniqueIds(txs) && i < |txs| && j < |txs| && i != j
    requires if Earlier(txs, i, j) then Confirmed(txs, s, i, j) else Confirmed(txs, s, j, i)
    ensures MarkedDuplicate(txs, s, i, j) <==> Beats(txs, j, i)
  {
    var a, b := if Earlier(txs, i, j) then i else j, if Earlier(txs, i, j) then j else i;
    var fs := ConfirmedFlags(txs, s, a, b);
    ExactlyOneBeats(txs, i, j);
    assert SameBlock(BlockKey, txs[a], txs[b]);
    hide PairFlags, Beats, ReferenceCheck, Confirmed, BlockKey, UniqueIds, Earlier, SameBlock;
    MarkIsSecondFlag(txs, s, i, j, fs);
  }

  lemma MarkIsSecondFlag(txs: seq<Doc>, s: Settings, i: nat, j: nat, fs: seq<Flag>)
    requires UniqueIds(txs) && i < |txs| && j < |txs| && i != j
    requires SameBlock(BlockKey, txs[i], txs[j]) || SameBlock(BlockKey, txs[j], txs[i])
    requires fs == PairFlags(s.window, ReferenceCheck(txs, s), txs[if i < j then i else j], txs[if i < j then j else i])
    requires |fs| == 2 && fs[0].likelyOriginal == Some(true) && fs[1].likelyOriginal == Some(false)
    ensures MarkedDuplicate(txs, s, i, j) <==> fs[1].docId == txs[i].id && fs[1].duplicateOf == txs[j].id
  {
    hide PairFlags, ReferenceCheck, AllDuplicates, BlockKey, SameBlock, UniqueIds;
    ReportedAt(txs, s, if i < j then i else j, if i < j then j else i, fs[1]);
    if MarkedDuplicate(txs, s, i, j) {
      var f :| f in AllDuplicates(txs, s)
        && f.docId == txs[i].id && f.duplicateOf == txs[j].id && f.likelyOriginal == Some(false);
      var k, l := DocumentsOf(txs, s, f);
      PlacesOf(txs, f, i, j, k, l);
    }
  }

  /** Nothing in the report marks document `k` as the duplicate of another of the set. */
  ghost predicate Kept(txs: seq<Doc>, s: Settings, docs: set<nat>, k: nat)
    requires Among(txs, docs)
  {
    k in docs && forall i :: i in docs && i != k ==> !MarkedDuplicate(txs, s, k, i)
  }

  ghost predicate KeepsOne(txs: seq<Doc>, s: Settings, docs: set<nat>)
    requires Among(txs, docs)
  {
    exists k :: Kept(txs, s, docs, k)
  }

  lemma MutualMark(txs: seq<Doc>, s: Settings, docs: set<nat>, i: nat, j: nat)
    requires UniqueIds(txs) && MutualDuplicates(txs, s, docs) && i in docs && j in docs && i != j
    ensures MarkedDuplicate(txs, s, i, j) <==> Beats(txs, j, i)
    ensures Beats(txs, i, j) != Beats(txs, j, i)
  {
    hide Confirmed, UniqueIds, MarkedDuplicate, Beats;
    MarkFollowsBeats(txs, s, i, j);
    ExactlyOneBeats(txs, i, j);
  }

  lemma KeptIsChampion(txs: seq<Doc>, s: Settings, docs: set<nat>, k: nat)
    requires UniqueIds(txs) && MutualDuplicates(txs, s, docs)
    ensures Kept(txs, s, docs, k) <==> Champion(txs, docs, k)
  {
    hide UniqueIds, MarkedDuplicate, Beats, Earlier, Confirmed;
    forall i | k in docs && i in docs && i != k
      ensures MarkedDuplicate(txs, s, k, i) <==> !Beats(txs, k, i)
    {
      MutualMark(txs, s, docs, k, i);
    }
  }

  lemma OneChampion(txs: seq<Doc>, docs: set<nat>, k: nat, l: nat)
    requires Among(txs, docs) && Champion(txs, docs, k) && Champion(txs, docs, l)
    ensures k == l
  {
    if k != l {
      ExactlyOneBeats(txs, k, l);
    }
  }

  /** Of any set of mutually confirmed duplicates the report keeps one, and only one, exactly when the set is
      not deadlocked; in a deadlock it recommends voiding every copy. */
  lemma KeepsOneIff(txs: seq<Doc>, s: Settings, docs: set<nat>)
    requires UniqueIds(txs) && docs != {} && MutualDuplicates(txs, s, docs)
    ensures KeepsOne(txs, s, docs) <==> !Deadlocked(txs, docs)
    ensures forall k, l :: Kept(txs, s, docs, k) && Kept(txs, s, docs, l) ==> k == l
  {
    hide UniqueIds, Champion, Deadlocked, Kept, Confirmed, Earlier;
    ChampionIff(txs, docs);
    forall k
      ensures Kept(txs, s, docs, k) <==> Champion(txs, docs, k)
    {
      KeptIsChampion(txs, s, docs, k);
    }
    forall k, l | Champion(txs, docs, k) && Champion(txs, docs, l)
      ensures k == l
    {
      OneChampion(txs, docs, k, l);
    }
  }

  /** The kept document: every other one is marked as its duplicate, it is paid if any is paid, and no equally
      paid one was posted before it. */
  lemma ExactlyOneKept(txs: seq<Doc>, s: Settings, docs: set<nat>) returns (kept: nat)
    requires UniqueIds(txs) && docs != {} && MutualDuplicates(txs, s, docs) && !Deadlocked(txs, docs)
    ensures Kept(txs, s, docs, kept)
    ensures forall i :: i in docs && i != kept ==> MarkedDuplicate(txs, s, i, kept)
    ensures forall i :: i in docs && IsPaid(txs[i]) ==> IsPaid(txs[kept])
    ensures forall i :: i in docs && IsPaid(txs[i]) == IsPaid(txs[kept]) && BothPosted(txs[i], txs[kept]) ==>
        txs[kept].postedDay.value <= txs[i].postedDay.value
  {
    hide UniqueIds, MarkedDuplicate, Beats, IsPaid, Deadlocked, Earlier, Confirmed;
    kept := FindChampion(txs, docs);
    KeptIsChampion(txs, s, docs, kept);
    forall i | i in docs && i != kept
      ensures MarkedDuplicate(txs, s, i, kept)
      ensures IsPaid(txs[i]) ==> IsPaid(txs[kept])
      ensures IsPaid(txs[i]) == IsPaid(txs[kept]) && BothPosted(txs[i], txs[kept]) ==>
        txs[kept].postedDay.value <= txs[i].postedDay.value
    {
      MutualMark(txs, s, docs, i, kept);
      BeatsMeans(txs, kept, i);
    }
  }

  ghost predicate KeepsOneOfEach(txs: seq<Doc>, s: Settings, docs: set<nat>)
    requires Among(txs, docs)
  {
    forall some: set<nat> :: some != {} && some <= docs ==> KeepsOne(txs, s, some)
  }

  lemma TrioLost(txs: seq<Doc>, s: Settings, docs: set<nat>, i: nat, j: nat, k: nat)
    requires UniqueIds(txs) && MutualDuplicates(txs, s, docs)
    requires {i, j, k} <= docs && UndatedBetween(txs, i, j, k)
    ensures !KeepsOne(txs, s, {i, j, k})
  {
    hide UniqueIds, UndatedBetween, KeepsOne, Confirmed, Earlier;
    SubsetsAreMutual(txs, s, docs, {i, j, k});
    InversionVoidsAll(txs, s, i, j, k);
  }

  lemma OneSetLost(txs: seq<Doc>, s: Settings, docs: set<nat>, some: set<nat>)
    requires Among(txs, docs) && some != {} && some <= docs && !KeepsOne(txs, s, some)
    ensures !KeepsOneOfEach(txs, s, docs)
  {
    hide KeepsOne;
  }

  lemma InversionBreaksSome(txs: seq<Doc>, s: Settings, docs: set<nat>)
    requires UniqueIds(txs) && MutualDuplicates(txs, s, docs) && HasInversion(txs, docs)
    ensures !KeepsOneOfEach(txs, s, docs)
  {
    hide UniqueIds, UndatedBetween, KeepsOne, KeepsOneOfEach, Confirmed, Earlier;
    var i, j, k :| i in docs && j in docs && k in docs && UndatedBetween(txs, i, j, k);
    TrioLost(txs, s, docs, i, j, k);
    OneSetLost(txs, s, docs, {i, j, k});
  }

  lemma NoInversionKeepsOne(txs: seq<Doc>, s: Settings, docs: set<nat>, some: set<nat>)
    requires UniqueIds(txs) && MutualDuplicates(txs, s, docs) && !HasInversion(txs, docs)
    requires some != {} && some <= docs
    ensures KeepsOne(txs, s, some)
  {
    hide UniqueIds, KeepsOne, HasInversion, Confirmed, Earlier, Deadlocked;
    SubsetsAreMutual(txs, s, docs, some);
    NoInversionNoDeadlock(txs, docs, some);
    KeepsOneIff(txs, s, some);
  }

  /** Whichever of the copies one looks at, the report keeps one of them, exactly when no undated copy lies
      between two posted ones in the wrong order. */
  lemma KeepsOneOfEachIff(txs: seq<Doc>, s: Settings, docs: set<nat>)
    requires UniqueIds(txs) && MutualDuplicates(txs, s, docs)
    ensures KeepsOneOfEach(txs, s, docs) <==> !HasInversion(txs, docs)
  {
    hide UniqueIds, KeepsOne, HasInversion, Confirmed, Earlier;
    if HasInversion(txs, docs) {
      InversionBreaksSome(txs, s, docs);
    } else {
      forall some: set<nat> | some != {} && some <= docs
        ensures KeepsOne(txs, s, some)
      {
        NoInversionKeepsOne(txs, s, docs, some);
      }
    }
  }

  lemma SubsetsAreMutual(txs: seq<Doc>, s: Settings, docs: set<nat>, some: set<nat>)
    requires MutualDuplicates(txs, s, docs) && some <= docs
    ensures MutualDuplicates(txs, s, some)
  {
    hide Confirmed, Earlier;
  }

  lemma NoInversionNoDeadlock(txs: seq<Doc>, docs: set<nat>, some: set<nat>)
    requires Among(txs, docs) && Among(txs, some) && some <= docs && !HasInversion(txs, docs)
    ensures !Deadlocked(txs, some)
  {
    hide UndatedBetween, IsPaid;
  }

  /** Three mutual duplicates with an undated inversion are all marked, each as the duplicate of the next. */
  lemma InversionVoidsAll(txs: seq<Doc>, s: Settings, i: nat, j: nat, k: nat)
    requires UniqueIds(txs) && UndatedBetween(txs, i, j, k) && MutualDuplicates(txs, s, {i, j, k})
    ensures MarkedDuplicate(txs, s, j, i) && MarkedDuplicate(txs, s, k, j) && MarkedDuplicate(txs, s, i, k)
    ensures !KeepsOne(txs, s, {i, j, k})
  {
    InversionIsCircle(txs, i, j, k);
    InversionIsDistinct(txs, i, j, k);
    hide UndatedBetween, MarkedDuplicate;
    CircleIsMarked(txs, s, i, j, k);
  }

  lemma InversionIsDistinct(txs: seq<Doc>, i: nat, j: nat, k: nat)
    requires UndatedBetween(txs, i, j, k)
    ensures i != j && j != k && i != k
  {
    hide Earlier, IsPaid;
  }

  lemma CircleIsMarked(txs: seq<Doc>, s: Settings, i: nat, j: nat, k: nat)
    requires UniqueIds(txs) && MutualDuplicates(txs, s, {i, j, k}) && i != j && j != k && i != k
    requires Beats(txs, i, j) && Beats(txs, j, k) && Beats(txs, k, i)
    ensures MarkedDuplicate(txs, s, j, i) && MarkedDuplicate(txs, s, k, j) && MarkedDuplicate(txs, s, i, k)
  {
    hide UniqueIds, MutualDuplicates, MarkedDuplicate, Beats;
    MutualMark(txs, s, {i, j, k}, j, i);
    MutualMark(txs, s, {i, j, k}, k, j);
    MutualMark(txs, s, {i, j, k}, i, k);
  }

  // ----- A bill entered three times ------------------------------------------------------------

  function Copy(id: string, posted: Option<int>): Doc {
    Doc(
      id, AccPay, 1, 12000, "supplier", "Supplier", "REF-1", "INV-7", "",
      Authorised, None, None, None, posted, "", "", [])
  }

  /** One bill entered three times under one date, posted on the 9th, never and on the 5th. */
  const COPIES := [Copy("a", Some(9)), Copy("b", None), Copy("c", Some(5))]

  lemma CopiesInverted()
    ensures UniqueIds(COPIES) && UndatedBetween(COPIES, 0, 1, 2)
  {}

  lemma CopiesAreMutual(s: Settings)
    requires s.window >= 0 && s.minConfidence <= 100
    ensures MutualDuplicates(COPIES, s, {0, 1, 2})
  {
    forall i, j | i in {0, 1, 2} && j in {0, 1, 2}
      ensures Confirmed(COPIES, s, i, j)
    {
      assert COPIES[i].day == COPIES[j].day == 1;
      SameBillConfirmed(COPIES, s, i, j);
    }
  }

  lemma SameBillConfirmed(txs: seq<Doc>, s: Settings, i: nat, j: nat)
    requires s.minConfidence <= 100 && i < |txs| && j < |txs|
    requires SameBlock(BlockKey, txs[i], txs[j]) && txs[j].day - txs[i].day <= s.window
    requires SameInvoiceNumber(txs[i], txs[j]) && txs[i].amount == txs[j].amount
    requires !IsPaid(txs[i]) && IsPurchase(txs[i].docType)
    ensures Confirmed(txs, s, i, j)
  {
    hide IsPaid, IsPurchase, SameInvoiceNumber, BlockKey, CadenceFor;
  }

  /** At every window, the default of 0 included, the report recommends voiding all three. */
  lemma ThreeCopiesAllVoided(s: Settings)
    requires s.window >= 0 && s.minConfidence <= 100
    ensures |COPIES| == 3 && Among(COPIES, {0, 1, 2})
    ensures MarkedDuplicate(COPIES, s, 1, 0) && MarkedDuplicate(COPIES, s, 2, 1) && MarkedDuplicate(COPIES, s, 0, 2)
    ensures !KeepsOne(COPIES, s, {0, 1, 2})
  {
    CopiesInverted();
    CopiesAreMutual(s);
    hide UndatedBetween, MutualDuplicates, MarkedDuplicate, UniqueIds, KeepsOne;
    InversionVoidsAll(COPIES, s, 0, 1, 2);
  }
}
