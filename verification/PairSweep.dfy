/** Blocked pair search: documents are grouped by a key, each group is sorted by date, and a sliding
    window compares neighbours, stopping early. This module proves that the search finds exactly what
    comparing all pairs of the whole list finds, each pair once. */
module PairSweep {
  import opened Wrappers
  import opened Documents
  import opened Grouping
  import opened Issues

  datatype Tier = High | Medium | Low | Review

  /** One side of a reported pair. `likelyOriginal` is absent on weak same-contact matches. */
  datatype Flag = Flag(
    docId: string, issue: IssueType, confidence: int, duplicateOf: string, partnerDay: int,
    likelyOriginal: Option<bool>, tier: Tier, crossContact: bool, daysApart: int)

  /** `_dup_issue_type` */
  function DuplicateTypeOf(t: DocType): IssueType {
    if IsCredit(t) then DuplicateCreditNote else if IsSales(t) then DuplicateInvoice else DuplicateBill
  }

  /** What a check reports for a pair whose first document is not dated after its second. */
  type Check = (Doc, Doc) -> seq<Flag>

  // ----- The simple form: every pair of the list ------------------------------------------------

  /** The flags of two documents, the earlier-dated one first; documents of the same date keep their
      list order. */
  function PairFlags(window: int, check: Check, x: Doc, y: Doc): seq<Flag> {
    var (a, b) := if x.day <= y.day then (x, y) else (y, x);
    if b.day - a.day > window then [] else check(a, b)
  }

  predicate SameBlock<K(==)>(key: Doc -> Option<K>, x: Doc, y: Doc) {
    key(x).Some? && key(x) == key(y)
  }

  function FlagsWithLater<K(==)>(window: int, check: Check, key: Doc -> Option<K>, x: Doc, ys: seq<Doc>)
    : multiset<Flag>
  {
    if ys == [] then multiset{}
    else
      (if SameBlock(key, x, ys[0]) then multiset(PairFlags(window, check, x, ys[0])) else multiset{})
      + FlagsWithLater(window, check, key, x, ys[1..])
  }

  /** All pairs `i < j` of documents in the same block, each compared once. */
  function AllPairs<K(==)>(window: int, check: Check, key: Doc -> Option<K>, xs: seq<Doc>): multiset<Flag> {
    if xs == [] then multiset{}
    else FlagsWithLater(window, check, key, xs[0], xs[1..]) + AllPairs(window, check, key, xs[1..])
  }

  lemma {:induction false} FlagOfLater<K>(
    window: int, check: Check, key: Doc -> Option<K>, x: Doc, ys: seq<Doc>, f: Flag)
    ensures f in FlagsWithLater(window, check, key, x, ys) <==>
      exists j :: 0 <= j < |ys| && SameBlock(key, x, ys[j]) && f in PairFlags(window, check, x, ys[j])
  {
    if ys != [] {
      FlagOfLater(window, check, key, x, ys[1..], f);
      if f in FlagsWithLater(window, check, key, x, ys[1..]) {
        var j :| 0 <= j < |ys[1..]| && SameBlock(key, x, ys[1..][j]) && f in PairFlags(window, check, x, ys[1..][j]);
        assert ys[j + 1] == ys[1..][j];
      }
      if j :| 0 <= j < |ys| && SameBlock(key, x, ys[j]) && f in PairFlags(window, check, x, ys[j]) {
        if j > 0 {
          assert ys[1..][j - 1] == ys[j];
        }
      }
    }
  }

  /** A flag is reported exactly when some pair of the list, in the same block and within the window,
      earns it. */
  lemma {:induction false} FlagOfPair<K>(window: int, check: Check, key: Doc -> Option<K>, xs: seq<Doc>, f: Flag)
    ensures f in AllPairs(window, check, key, xs) <==>
      exists i, j :: 0 <= i < j < |xs| && SameBlock(key, xs[i], xs[j]) && f in PairFlags(window, check, xs[i], xs[j])
  {
    if xs != [] {
      FlagOfLater(window, check, key, xs[0], xs[1..], f);
      FlagOfPair(window, check, key, xs[1..], f);
      if f in FlagsWithLater(window, check, key, xs[0], xs[1..]) {
        var j :| 0 <= j < |xs[1..]| && SameBlock(key, xs[0], xs[1..][j])
                 && f in PairFlags(window, check, xs[0], xs[1..][j]);
        assert xs[j + 1] == xs[1..][j];
      } else if f in AllPairs(window, check, key, xs[1..]) {
        var i, j :| 0 <= i < j < |xs[1..]| && SameBlock(key, xs[1..][i], xs[1..][j])
          && f in PairFlags(window, check, xs[1..][i], xs[1..][j]);
        assert xs[i + 1] == xs[1..][i] && xs[j + 1] == xs[1..][j];
      }
      if i, j :| 0 <= i < j < |xs| && SameBlock(key, xs[i], xs[j]) && f in PairFlags(window, check, xs[i], xs[j]) {
        assert xs[1..][j - 1] == xs[j];
        if i > 0 {
          assert xs[1..][i - 1] == xs[i];
        }
      }
    }
  }

  // ----- Within one block ----------------------------------------------------------------------

  function With(window: int, check: Check, x: Doc, ys: seq<Doc>): multiset<Flag> {
    if ys == [] then multiset{} else multiset(PairFlags(window, check, x, ys[0])) + With(window, check, x, ys[1..])
  }

  function BlockPairs(window: int, check: Check, xs: seq<Doc>): multiset<Flag> {
    if xs == [] then multiset{} else With(window, check, xs[0], xs[1..]) + BlockPairs(window, check, xs[1..])
  }

  /** Python's stable `sort` by date, as insertion. */
  function InsertByDay(x: Doc, ys: seq<Doc>): seq<Doc> {
    if ys == [] || x.day <= ys[0].day then [x] + ys else [ys[0]] + InsertByDay(x, ys[1..])
  }

  function SortByDay(xs: seq<Doc>): seq<Doc> {
    if xs == [] then [] else InsertByDay(xs[0], SortByDay(xs[1..]))
  }

  predicate DayOrdered(xs: seq<Doc>) {
    forall i, j :: 0 <= i < j < |xs| ==> xs[i].day <= xs[j].day
  }

  lemma {:induction false} InsertMembers(x: Doc, ys: seq<Doc>, z: Doc)
    ensures z in InsertByDay(x, ys) <==> z == x || z in ys
  {
    if ys != [] && x.day > ys[0].day {
      InsertMembers(x, ys[1..], z);
    }
  }

  lemma {:induction false} InsertOrdered(x: Doc, ys: seq<Doc>)
    requires DayOrdered(ys)
    ensures DayOrdered(InsertByDay(x, ys))
  {
    if ys != [] && x.day > ys[0].day {
      InsertOrdered(x, ys[1..]);
      var r := InsertByDay(x, ys[1..]);
      forall i | 0 <= i < |r|
        ensures ys[0].day <= r[i].day
      {
        InsertMembers(x, ys[1..], r[i]);
      }
    }
  }

  lemma {:induction false} SortOrdered(xs: seq<Doc>)
    ensures DayOrdered(SortByDay(xs))
    ensures forall z :: z in SortByDay(xs) ==> z in xs
  {
    if xs != [] {
      SortOrdered(xs[1..]);
      InsertOrdered(xs[0], SortByDay(xs[1..]));
      forall z | z in SortByDay(xs)
        ensures z in xs
      {
        InsertMembers(xs[0], SortByDay(xs[1..]), z);
      }
    }
  }

  lemma {:induction false} WithInserted(window: int, check: Check, x: Doc, y: Doc, ys: seq<Doc>)
    ensures With(window, check, x, InsertByDay(y, ys)) ==
      multiset(PairFlags(window, check, x, y)) + With(window, check, x, ys)
  {
    if ys != [] && y.day > ys[0].day {
      WithInserted(window, check, x, y, ys[1..]);
      assert ([ys[0]] + InsertByDay(y, ys[1..]))[1..] == InsertByDay(y, ys[1..]);
    } else {
      assert ([y] + ys)[1..] == ys;
    }
  }

  /** Moving a document past strictly earlier ones does not change which pairs are compared, nor which
      document of a pair comes first. */
  lemma {:induction false} PairsInserted(window: int, check: Check, x: Doc, ys: seq<Doc>)
    ensures BlockPairs(window, check, InsertByDay(x, ys)) ==
      With(window, check, x, ys) + BlockPairs(window, check, ys)
  {
    if ys != [] && x.day > ys[0].day {
      PairsInserted(window, check, x, ys[1..]);
      WithInserted(window, check, ys[0], x, ys[1..]);
      assert ([ys[0]] + InsertByDay(x, ys[1..]))[1..] == InsertByDay(x, ys[1..]);
      assert PairFlags(window, check, ys[0], x) == PairFlags(window, check, x, ys[0]);
    } else {
      assert ([x] + ys)[1..] == ys;
    }
  }

  lemma {:induction false} WithSorted(window: int, check: Check, x: Doc, ys: seq<Doc>)
    ensures With(window, check, x, SortByDay(ys)) == With(window, check, x, ys)
  {
    if ys != [] {
      WithSorted(window, check, x, ys[1..]);
      WithInserted(window, check, x, ys[0], SortByDay(ys[1..]));
    }
  }

  /** Sorting a block by date changes nothing about its pairs. */
  lemma {:induction false} SortKeepsPairs(window: int, check: Check, xs: seq<Doc>)
    ensures BlockPairs(window, check, SortByDay(xs)) == BlockPairs(window, check, xs)
  {
    if xs != [] {
      SortKeepsPairs(window, check, xs[1..]);
      PairsInserted(window, check, xs[0], SortByDay(xs[1..]));
      WithSorted(window, check, xs[0], xs[1..]);
    }
  }

  // ----- From blocks to the whole list ----------------------------------------------------------

  lemma {:induction false} LaterInBlock<K(!new)>(window: int, check: Check, key: Doc -> Option<K>, x: Doc, ys: seq<Doc>)
    requires key(x).Some?
    ensures FlagsWithLater(window, check, key, x, ys) == With(window, check, x, Bucket(ys, key, key(x).value))
  {
    if ys != [] {
      LaterInBlock(window, check, key, x, ys[1..]);
      var rest := Bucket(ys[1..], key, key(x).value);
      assert ([ys[0]] + rest)[1..] == rest;
    }
  }

  lemma {:induction false} NoBlockNoFlags<K>(window: int, check: Check, key: Doc -> Option<K>, x: Doc, ys: seq<Doc>)
    requires key(x).None?
    ensures FlagsWithLater(window, check, key, x, ys) == multiset{}
  {
    if ys != [] {
      NoBlockNoFlags(window, check, key, x, ys[1..]);
    }
  }

  function SumBlocks<K(==, !new)>(window: int, check: Check, key: Doc -> Option<K>, order: seq<K>, xs: seq<Doc>)
    : multiset<Flag>
  {
    if order == [] then
      multiset{}
    else
      SumBlocks(window, check, key, order[..|order| - 1], xs)
      + BlockPairs(window, check, Bucket(xs, key, order[|order| - 1]))
  }

  lemma {:induction false} SumBlocksEmpty<K(!new)>(window: int, check: Check, key: Doc -> Option<K>, order: seq<K>)
    ensures SumBlocks(window, check, key, order, []) == multiset{}
  {
    if order != [] {
      SumBlocksEmpty(window, check, key, order[..|order| - 1]);
    }
  }

  lemma BlockCons<K(!new)>(window: int, check: Check, key: Doc -> Option<K>, k: K, xs: seq<Doc>)
    requires xs != []
    ensures BlockPairs(window, check, Bucket(xs, key, k)) == BlockPairs(window, check, Bucket(xs[1..], key, k))
      + if key(xs[0]) == Some(k) then With(window, check, xs[0], Bucket(xs[1..], key, k)) else multiset{}
  {
    var rest := Bucket(xs[1..], key, k);
    assert ([xs[0]] + rest)[1..] == rest;
  }

  /** Putting one document in front adds its pairs to its own block and to no other. */
  lemma {:induction false} SumBlocksCons<K(!new)>(
    window: int, check: Check, key: Doc -> Option<K>, order: seq<K>, xs: seq<Doc>)
    requires xs != [] && Distinct(order)
    ensures SumBlocks(window, check, key, order, xs) == SumBlocks(window, check, key, order, xs[1..])
      + if key(xs[0]).Some? && key(xs[0]).value in order
        then With(window, check, xs[0], Bucket(xs[1..], key, key(xs[0]).value)) else multiset{}
  {
    hide Bucket, BlockPairs, With;
    if order != [] {
      var init, last := order[..|order| - 1], order[|order| - 1];
      SumBlocksCons(window, check, key, init, xs);
      BlockCons(window, check, key, last, xs);
      assert order == init + [last];
      assert last !in init;
    }
  }

  /** The blocks together hold exactly the same-block pairs of the whole list. */
  lemma {:induction false} BlocksAreAllPairs<K(!new)>(
    window: int, check: Check, key: Doc -> Option<K>, order: seq<K>, xs: seq<Doc>)
    requires Distinct(order)
    requires forall i :: 0 <= i < |xs| && key(xs[i]).Some? ==> key(xs[i]).value in order
    ensures SumBlocks(window, check, key, order, xs) == AllPairs(window, check, key, xs)
  {
    if xs == [] {
      SumBlocksEmpty(window, check, key, order);
    } else {
      BlocksAreAllPairs(window, check, key, order, xs[1..]);
      SumBlocksCons(window, check, key, order, xs);
      if key(xs[0]).Some? {
        LaterInBlock(window, check, key, xs[0], xs[1..]);
      } else {
        NoBlockNoFlags(window, check, key, xs[0], xs[1..]);
      }
    }
  }

  /** A block of one document has no pairs. */
  lemma NoPairsAlone(window: int, check: Check, xs: seq<Doc>)
    requires |xs| < 2
    ensures BlockPairs(window, check, xs) == multiset{}
  {
    if |xs| == 1 {
      assert xs[1..] == [];
    }
  }

  lemma {:induction false} SameChecksSamePairs(window: int, check: Check, check': Check, xs: seq<Doc>)
    requires forall x, y :: x in xs && y in xs ==> check(x, y) == check'(x, y)
    ensures BlockPairs(window, check, xs) == BlockPairs(window, check', xs)
  {
    if xs != [] {
      SameChecksSamePairs(window, check, check', xs[1..]);
      SameChecksSameWith(window, check, check', xs[0], xs[1..]);
    }
  }

  lemma {:induction false} SameChecksSameWith(window: int, check: Check, check': Check, x: Doc, ys: seq<Doc>)
    requires forall y :: y in ys ==> check(x, y) == check'(x, y) && check(y, x) == check'(y, x)
    ensures With(window, check, x, ys) == With(window, check', x, ys)
  {
    if ys != [] {
      SameChecksSameWith(window, check, check', x, ys[1..]);
    }
  }

  // ----- The sweep -----------------------------------------------------------------------------

  lemma {:induction false} BeyondWindow(window: int, check: Check, x: Doc, ys: seq<Doc>)
    requires DayOrdered(ys) && ys != [] && x.day <= ys[0].day && ys[0].day - x.day > window
    ensures With(window, check, x, ys) == multiset{}
  {
    if |ys| > 1 {
      BeyondWindow(window, check, x, ys[1..]);
    } else {
      assert ys[1..] == [];
    }
  }

  /** The outer loop over one sorted block. */
  method Sweep(group: seq<Doc>, window: int, check: Check) returns (flagged: seq<Flag>)
    requires DayOrdered(group)
    ensures multiset(flagged) == BlockPairs(window, check, group)
  {
    flagged := [];
    for idx := 0 to |group|
      invariant multiset(flagged) + BlockPairs(window, check, group[idx..]) == BlockPairs(window, check, group)
    {
      assert group[idx..][1..] == group[idx + 1..];
      var found := CompareWithLater(group[idx], group[idx + 1..], window, check);
      flagged := flagged + found;
    }
  }

  lemma WithStep(window: int, check: Check, a: Doc, later: seq<Doc>, k: nat)
    requires DayOrdered(later) && k < |later| && a.day <= later[k].day
    ensures With(window, check, a, later[k..]) ==
      if later[k].day - a.day > window then multiset{}
      else multiset(check(a, later[k])) + With(window, check, a, later[k + 1..])
  {
    assert later[k..][1..] == later[k + 1..];
    if later[k].day - a.day > window {
      BeyondWindow(window, check, a, later[k..]);
    }
  }

  /** The inner loop, with the early `break`. */
  method CompareWithLater(a: Doc, later: seq<Doc>, window: int, check: Check) returns (flagged: seq<Flag>)
    requires DayOrdered(later) && forall k :: 0 <= k < |later| ==> a.day <= later[k].day
    ensures multiset(flagged) == With(window, check, a, later)
  {
    flagged := [];
    for k := 0 to |later|
      invariant multiset(flagged) + With(window, check, a, later[k..]) == With(window, check, a, later)
    {
      WithStep(window, check, a, later, k);
      if later[k].day - a.day > window {
        return;
      }
      flagged := flagged + check(a, later[k]);
    }
  }

  // ----- The final ordering --------------------------------------------------------------------

  function InsertByConfidence(f: Flag, fs: seq<Flag>): (r: seq<Flag>)
    ensures multiset(r) == multiset(fs) + multiset{f}
  {
    if fs == [] || f.confidence >= fs[0].confidence then
      [f] + fs
    else
      assert fs == [fs[0]] + fs[1..];
      [fs[0]] + InsertByConfidence(f, fs[1..])
  }

  /** `flagged.sort(key=confidence, reverse=True)`, stable. */
  function SortByConfidence(fs: seq<Flag>): (r: seq<Flag>)
    ensures multiset(r) == multiset(fs)
  {
    if fs == [] then
      []
    else
      assert fs == [fs[0]] + fs[1..];
      InsertByConfidence(fs[0], SortByConfidence(fs[1..]))
  }

  predicate ByConfidence(fs: seq<Flag>) {
    forall i, j :: 0 <= i < j < |fs| ==> fs[i].confidence >= fs[j].confidence
  }

  lemma {:induction false} InsertStaysByConfidence(f: Flag, fs: seq<Flag>)
    requires ByConfidence(fs)
    ensures ByConfidence(InsertByConfidence(f, fs))
  {
    if fs != [] && f.confidence < fs[0].confidence {
      InsertStaysByConfidence(f, fs[1..]);
      var r := InsertByConfidence(f, fs[1..]);
      forall i | 0 <= i < |r|
        ensures fs[0].confidence >= r[i].confidence
      {
        assert r[i] in multiset(r);
        assert r[i] == f || r[i] in fs[1..];
      }
    }
  }

  lemma {:induction false} SortedByConfidence(fs: seq<Flag>)
    ensures ByConfidence(SortByConfidence(fs))
  {
    if fs != [] {
      SortedByConfidence(fs[1..]);
      InsertStaysByConfidence(fs[0], SortByConfidence(fs[1..]));
    }
  }

  function ConfidenceKey(f: Flag): Option<int> {
    Some(f.confidence)
  }

  lemma {:induction false} InsertIsStable(f: Flag, fs: seq<Flag>, c: int)
    ensures Bucket(InsertByConfidence(f, fs), ConfidenceKey, c) == Bucket([f] + fs, ConfidenceKey, c)
  {
    assert ([f] + fs)[1..] == fs;
    if fs != [] && f.confidence < fs[0].confidence {
      InsertIsStable(f, fs[1..], c);
      var r := InsertByConfidence(f, fs[1..]);
      assert ([fs[0]] + r)[1..] == r && ([f] + fs[1..])[1..] == fs[1..];
    }
  }

  /** Flags of one confidence keep the order in which they were found. */
  lemma {:induction false} SortIsStable(fs: seq<Flag>, c: int)
    ensures Bucket(SortByConfidence(fs), ConfidenceKey, c) == Bucket(fs, ConfidenceKey, c)
  {
    if fs != [] {
      SortIsStable(fs[1..], c);
      InsertIsStable(fs[0], SortByConfidence(fs[1..]), c);
      var r := SortByConfidence(fs[1..]);
      assert ([fs[0]] + r)[1..] == r;
    }
  }
}
