/** `OverlapsValidator` (mdb_validator/overlaps.py): the Parcel,
    Construction and Segments classes of all MDBs are collected, every pair
    (i, j) with i < j whose paths have different parent folders is
    intersected, and each pair with a positive intersection count is
    reported. The parent-folder test lets through two classes of one MDB in
    two datasets; `SameMdb` is the corrected test. The count the engine computes
    for a pair of paths is an input (`counts`); a pair missing from it makes
    the tool raise. */
module Overlaps {
  import opened Values
  import opened Engine
  import opened Utils

  const ValidFcs: seq<string> := ["Parcel", "Construction", "Segments"]

  const Header: ReportRow := [Str("File1"), Str("File2"), Str("Overlap Count")]

  const IntersectOutput: string := "in_memory/intersect_output"

  /** A collected class: the MDB it was found in and its full path. */
  datatype Entry = Entry(mdb: string, path: string)

  function EntriesOf(mdb: string, locs: seq<Located>): (es: seq<Entry>)
    ensures |es| == |locs| && forall k :: 0 <= k < |locs| ==> es[k] == Entry(mdb, locs[k].path)
  {
    seq(|locs|, k requires 0 <= k < |locs| => Entry(mdb, locs[k].path))
  }

  /** The classes collected from every MDB, or the error of the first MDB
      the engine cannot open. */
  datatype Gathered = Gathered(entries: seq<Entry>) | GatherFailed(error: string)

  function Gather(mdbs: seq<string>, db: Db): Gathered
  {
    if |mdbs| == 0 then Gathered([])
    else
      var g := Gather(mdbs[..|mdbs| - 1], db);
      var mdb := mdbs[|mdbs| - 1];
      if g.GatherFailed? then g
      else match FeatureClassesOf(mdb, ValidFcs, db)
        case None => GatherFailed(CannotOpen(mdb))
        case Some(locs) => Gathered(g.entries + EntriesOf(mdb, locs))
  }

  /** Every collected class is a Parcel, Construction or Segments class of
      the MDB it is recorded with, and that MDB is one of the list. */
  lemma {:induction false} GatheredAreValid(mdbs: seq<string>, db: Db)
    requires Gather(mdbs, db).Gathered?
    ensures forall e :: e in Gather(mdbs, db).entries ==> (e.mdb in mdbs && FeatureClassesOf(e.mdb, ValidFcs, db).Some? &&
      exists loc :: loc in FeatureClassesOf(e.mdb, ValidFcs, db).value && loc.path == e.path && loc.name in ValidFcs)
  {
    if |mdbs| > 0 {
      var front, mdb := mdbs[..|mdbs| - 1], mdbs[|mdbs| - 1];
      GatheredAreValid(front, db);
      var locs := FeatureClassesOf(mdb, ValidFcs, db).value;
      forall e | e in EntriesOf(mdb, locs)
        ensures exists loc :: loc in locs && loc.path == e.path && loc.name in ValidFcs
      {
        var k :| 0 <= k < |locs| && EntriesOf(mdb, locs)[k] == e;
        Resolved(mdb, ValidFcs, db, locs[k]);
      }
    }
  }

  method GatherFeatureFiles(mdbs: seq<string>, db: Db) returns (g: Gathered)
    ensures g == Gather(mdbs, db)
  {
    var featureFiles: seq<Entry> := [];
    var i := 0;
    while i < |mdbs|
      invariant 0 <= i <= |mdbs|
      invariant Gather(mdbs[..i], db) == Gathered(featureFiles)
    {
      assert mdbs[..i + 1][..i] == mdbs[..i] && mdbs[..i + 1][i] == mdbs[i];
      var features := GetFeatureClasses(mdbs[i], ValidFcs, db);
      if features.None? {
        GatherSticks(mdbs, i + 1, db);
        return GatherFailed(CannotOpen(mdbs[i]));
      }
      featureFiles := featureFiles + EntriesOf(mdbs[i], features.value);
      i := i + 1;
    }
    assert mdbs[..i] == mdbs;
    return Gathered(featureFiles);
  }

  lemma {:induction false} GatherSticks(mdbs: seq<string>, i: nat, db: Db)
    requires i <= |mdbs| && Gather(mdbs[..i], db).GatherFailed?
    ensures Gather(mdbs, db) == Gather(mdbs[..i], db)
    decreases |mdbs| - i
  {
    if i < |mdbs| {
      assert mdbs[..i + 1][..i] == mdbs[..i];
      GatherSticks(mdbs, i + 1, db);
    } else {
      assert mdbs[..i] == mdbs;
    }
  }

  // ------------------------------------------------------------ the pairs

  /** The pair of positions (i, j) of the collected list and their classes. */
  datatype Pair = Pair(i: nat, j: nat, first: Entry, second: Entry)

  /** The pairs (i, j), i + 1 <= j < |es|, in the order of the inner loop. */
  function PairsWith(es: seq<Entry>, i: nat): (ps: seq<Pair>)
    requires i < |es|
    ensures |ps| == |es| - i - 1
    ensures forall k :: 0 <= k < |ps| ==> ps[k] == Pair(i, i + 1 + k, es[i], es[i + 1 + k])
  {
    seq(|es| - i - 1, k requires 0 <= k < |es| - i - 1 => Pair(i, i + 1 + k, es[i], es[i + 1 + k]))
  }

  /** The pairs of the two loops, from row `i` on. */
  function PairsFrom(es: seq<Entry>, i: nat): seq<Pair>
    decreases |es| - i
  {
    if i >= |es| then [] else PairsWith(es, i) + PairsFrom(es, i + 1)
  }

  function Pairs(es: seq<Entry>): seq<Pair>
  {
    PairsFrom(es, 0)
  }

  /** The pair (i, j) is visited iff i < j, and it carries the classes at
      those positions. */
  lemma {:induction false} PairsFromMembers(es: seq<Entry>, i: nat)
    ensures forall p :: p in PairsFrom(es, i) <==>
      i <= p.i < p.j < |es| && p.first == es[p.i] && p.second == es[p.j]
    decreases |es| - i
  {
    if i < |es| {
      PairsFromMembers(es, i + 1);
      forall p: Pair | i <= p.i < p.j < |es| && p.first == es[p.i] && p.second == es[p.j]
        ensures p in PairsFrom(es, i)
      {
        if p.i == i {
          assert PairsWith(es, i)[p.j - i - 1] == p;
        }
      }
    }
  }

  /** (i, j) comes before (i', j') in the loops. */
  predicate Before(p: Pair, q: Pair)
  {
    p.i < q.i || (p.i == q.i && p.j < q.j)
  }

  lemma {:induction false} PairsFromOrdered(es: seq<Entry>, i: nat)
    ensures forall a, b :: 0 <= a < b < |PairsFrom(es, i)| ==> Before(PairsFrom(es, i)[a], PairsFrom(es, i)[b])
    decreases |es| - i
  {
    if i < |es| {
      PairsFromOrdered(es, i + 1);
      PairsFromMembers(es, i + 1);
      var row, rest := PairsWith(es, i), PairsFrom(es, i + 1);
      forall a, b | 0 <= a < b < |row + rest| ensures Before((row + rest)[a], (row + rest)[b]) {
        if b >= |row| && a < |row| {
          assert (row + rest)[b] in rest;
        }
      }
    }
  }

  /** Every unordered pair of distinct positions is visited exactly once:
      as (i, j) with i < j, never as (j, i), (i, i) or twice. */
  lemma PairsExact(es: seq<Entry>)
    ensures forall p :: p in Pairs(es) <==> p.i < p.j < |es| && p.first == es[p.i] && p.second == es[p.j]
    ensures forall a, b :: 0 <= a < b < |Pairs(es)| ==> Pairs(es)[a] != Pairs(es)[b]
  {
    PairsFromMembers(es, 0);
    PairsFromOrdered(es, 0);
  }

  // ---------------------------------------------------------- the skip rule

  /** Which pairs the loop leaves out. `SameFolder` is the test of line 64,
      on the parent directory of the two paths; `SameMdb` is the test its
      message describes, on the owning MDB. */
  datatype SkipRule = SameFolder | SameMdb

  predicate Skips(rule: SkipRule, e1: Entry, e2: Entry)
  {
    match rule
    case SameFolder => Dirname(e1.path) == Dirname(e2.path)
    case SameMdb => e1.mdb == e2.mdb
  }

  /** A name that `Join` can split off again. */
  predicate PlainName(s: string)
  {
    s != "" && NoSep(s)
  }

  lemma JoinDiffers(a: string, d1: string, d2: string)
    requires a != "" && !IsSep(a[|a| - 1]) && d1 != d2
    ensures Join(a, d1) != Join(a, d2)
  {
    assert Join(a, d1)[|a| + 1..] == d1;
    assert Join(a, d2)[|a| + 1..] == d2;
  }

  /** The test as written misses classes of one MDB in two different
      datasets: their parent folders are the two datasets, so the pair is
      compared, although both come from the same MDB. */
  lemma SameFolderMissesDatasets(mdb: string, d1: string, d2: string, f1: string, f2: string)
    requires mdb != "" && !IsSep(mdb[|mdb| - 1])
    requires PlainName(d1) && PlainName(d2) && d1 != d2 && NoSep(f1) && NoSep(f2)
    ensures var e1, e2 := Entry(mdb, FullPath(mdb, d1, f1)), Entry(mdb, FullPath(mdb, d2, f2));
      !Skips(SameFolder, e1, e2) && Skips(SameMdb, e1, e2)
  {
    var x1, x2 := Join(mdb, d1), Join(mdb, d2);
    assert x1 == mdb + "\\" + d1 && x1[|x1| - 1] == d1[|d1| - 1];
    assert x2 == mdb + "\\" + d2 && x2[|x2| - 1] == d2[|d2| - 1];
    SplitJoin(x1, f1);
    SplitJoin(x2, f2);
    JoinDiffers(mdb, d1, d2);
  }

  /** Classes at the root of an MDB without datasets share its folder, so
      there both tests agree. */
  lemma RootClassesSkippedByBoth(mdb: string, f1: string, f2: string)
    requires mdb != "" && !IsSep(mdb[|mdb| - 1]) && NoSep(f1) && NoSep(f2)
    ensures var e1, e2 := Entry(mdb, FullPath(mdb, "", f1)), Entry(mdb, FullPath(mdb, "", f2));
      Skips(SameFolder, e1, e2) && Skips(SameMdb, e1, e2)
  {
    SplitJoin(mdb, f1);
    SplitJoin(mdb, f2);
  }

  // ------------------------------------------------------------ the sweep

  function OverlapError(fc1: string, fc2: string): string
  {
    "intersect failed for " + fc1 + " and " + fc2
  }

  function OverlapRow(p: Pair, count: nat): ReportRow
  {
    [Str(p.first.path), Str(p.second.path), Int(count)]
  }

  /** One pair (lines 61-88): skipped, raised, or a row when the count is
      positive. */
  function PairPass(rule: SkipRule, counts: map<(string, string), nat>, p: Pair): Pass
  {
    var key := (p.first.path, p.second.path);
    if Skips(rule, p.first, p.second) then Pass([], None)
    else if key !in counts then Pass([], Some(OverlapError(p.first.path, p.second.path)))
    else if counts[key] > 0 then Pass([OverlapRow(p, counts[key])], None)
    else Pass([], None)
  }

  /** The pairs in turn, stopping at the first that raised. */
  function Sweep(rule: SkipRule, counts: map<(string, string), nat>, todo: seq<Pair>): Pass
  {
    if |todo| == 0 then Pass([], None) else Then(PairPass(rule, counts, todo[0]), Sweep(rule, counts, todo[1..]))
  }

  /** Every row reports a pair that the rule keeps, with a positive count. */
  lemma {:induction false} SweepRowsSound(rule: SkipRule, counts: map<(string, string), nat>, todo: seq<Pair>, r: ReportRow)
    requires r in Sweep(rule, counts, todo).rows
    ensures exists p :: (p in todo && !Skips(rule, p.first, p.second) && (p.first.path, p.second.path) in counts
      && counts[(p.first.path, p.second.path)] > 0 && r == OverlapRow(p, counts[(p.first.path, p.second.path)]))
  {
    if r !in PairPass(rule, counts, todo[0]).rows {
      SweepRowsSound(rule, counts, todo[1..], r);
      var p :| p in todo[1..] && !Skips(rule, p.first, p.second) && (p.first.path, p.second.path) in counts
        && counts[(p.first.path, p.second.path)] > 0 && r == OverlapRow(p, counts[(p.first.path, p.second.path)]);
      assert p in todo;
    }
  }

  /** When no pair raised, every kept pair with a positive count is
      reported. */
  lemma {:induction false} SweepRowsComplete(rule: SkipRule, counts: map<(string, string), nat>, todo: seq<Pair>, k: nat)
    requires k < |todo| && Sweep(rule, counts, todo).failure.None?
    requires !Skips(rule, todo[k].first, todo[k].second)
    requires (todo[k].first.path, todo[k].second.path) in counts && counts[(todo[k].first.path, todo[k].second.path)] > 0
    ensures OverlapRow(todo[k], counts[(todo[k].first.path, todo[k].second.path)]) in Sweep(rule, counts, todo).rows
  {
    if k > 0 {
      SweepRowsComplete(rule, counts, todo[1..], k - 1);
    }
  }

  /** With the owning-MDB rule, every row pairs classes of two different
      MDBs, the first collected before the second. */
  lemma RowsCrossMdbs(es: seq<Entry>, counts: map<(string, string), nat>, r: ReportRow)
    requires r in Sweep(SameMdb, counts, Pairs(es)).rows
    ensures exists i, j :: (0 <= i < j < |es| && es[i].mdb != es[j].mdb
      && (es[i].path, es[j].path) in counts && counts[(es[i].path, es[j].path)] > 0
      && r == [Str(es[i].path), Str(es[j].path), Int(counts[(es[i].path, es[j].path)])])
  {
    SweepRowsSound(SameMdb, counts, Pairs(es), r);
    PairsExact(es);
    var p :| p in Pairs(es) && !Skips(SameMdb, p.first, p.second) && (p.first.path, p.second.path) in counts
      && counts[(p.first.path, p.second.path)] > 0 && r == OverlapRow(p, counts[(p.first.path, p.second.path)]);
    assert 0 <= p.i < p.j < |es|;
  }

  /** A pair of classes from two MDBs with a positive count is reported
      when the sweep raised nothing. */
  lemma CrossMdbPairReported(es: seq<Entry>, counts: map<(string, string), nat>, i: nat, j: nat)
    requires i < j < |es| && es[i].mdb != es[j].mdb
    requires (es[i].path, es[j].path) in counts && counts[(es[i].path, es[j].path)] > 0
    requires Sweep(SameMdb, counts, Pairs(es)).failure.None?
    ensures [Str(es[i].path), Str(es[j].path), Int(counts[(es[i].path, es[j].path)])] in Sweep(SameMdb, counts, Pairs(es)).rows
  {
    PairsExact(es);
    var p := Pair(i, j, es[i], es[j]);
    assert p in Pairs(es);
    var k :| 0 <= k < |Pairs(es)| && Pairs(es)[k] == p;
    SweepRowsComplete(SameMdb, counts, Pairs(es), k);
  }

  /** As written, every row pairs classes i < j whose paths have different
      parent folders. */
  lemma RowsCrossFolders(es: seq<Entry>, counts: map<(string, string), nat>, r: ReportRow)
    requires r in Sweep(SameFolder, counts, Pairs(es)).rows
    ensures exists i, j :: (0 <= i < j < |es| && Dirname(es[i].path) != Dirname(es[j].path)
      && (es[i].path, es[j].path) in counts && counts[(es[i].path, es[j].path)] > 0
      && r == [Str(es[i].path), Str(es[j].path), Int(counts[(es[i].path, es[j].path)])])
  {
    SweepRowsSound(SameFolder, counts, Pairs(es), r);
    PairsExact(es);
    var p :| p in Pairs(es) && !Skips(SameFolder, p.first, p.second) && (p.first.path, p.second.path) in counts
      && counts[(p.first.path, p.second.path)] > 0 && r == OverlapRow(p, counts[(p.first.path, p.second.path)]);
    assert 0 <= p.i < p.j < |es|;
  }

  /** As written, a pair of classes in two different folders with a positive
      count is reported when the sweep raised nothing. */
  lemma CrossFolderPairReported(es: seq<Entry>, counts: map<(string, string), nat>, i: nat, j: nat)
    requires i < j < |es| && Dirname(es[i].path) != Dirname(es[j].path)
    requires (es[i].path, es[j].path) in counts && counts[(es[i].path, es[j].path)] > 0
    requires Sweep(SameFolder, counts, Pairs(es)).failure.None?
    ensures [Str(es[i].path), Str(es[j].path), Int(counts[(es[i].path, es[j].path)])] in Sweep(SameFolder, counts, Pairs(es)).rows
  {
    PairsExact(es);
    var p := Pair(i, j, es[i], es[j]);
    assert p in Pairs(es);
    var k :| 0 <= k < |Pairs(es)| && Pairs(es)[k] == p;
    SweepRowsComplete(SameFolder, counts, Pairs(es), k);
  }

  /** Two classes of one MDB in two datasets, with 4 overlapping features:
      the test as written reports them, the owning-MDB test does not. */
  lemma WrittenRuleReportsWithinMdb(mdb: string, d1: string, d2: string, f1: string, f2: string)
    requires mdb != "" && !IsSep(mdb[|mdb| - 1])
    requires PlainName(d1) && PlainName(d2) && d1 != d2 && NoSep(f1) && NoSep(f2)
    ensures var e1, e2 := Entry(mdb, FullPath(mdb, d1, f1)), Entry(mdb, FullPath(mdb, d2, f2));
      var counts := map[(e1.path, e2.path) := 4];
      Sweep(SameFolder, counts, Pairs([e1, e2])).rows == [[Str(e1.path), Str(e2.path), Int(4)]]
      && Sweep(SameMdb, counts, Pairs([e1, e2])).rows == []
  {
    var e1, e2 := Entry(mdb, FullPath(mdb, d1, f1)), Entry(mdb, FullPath(mdb, d2, f2));
    var es := [e1, e2];
    SameFolderMissesDatasets(mdb, d1, d2, f1, f2);
    assert PairsFrom(es, 2) == [];
    assert PairsWith(es, 1) == [];
    assert PairsFrom(es, 1) == [];
    assert PairsWith(es, 0) == [Pair(0, 1, e1, e2)];
    assert Pairs(es) == [Pair(0, 1, e1, e2)];
  }

  // -------------------------------------------------------------- the run

  /** The run with a given skip test: `SameFolder` is the validator as
      written, `SameMdb` the corrected one. */
  function Run(rule: SkipRule, folder: string, tree: Option<Dir>, db: Db, counts: map<(string, string), nat>): RunResult
  {
    if folder == "" then RunResult(ValueError(FolderNotSet), None)
    else
      var mdbs := MdbFiles(folder, tree, DefaultExclusions);
      if |mdbs| < 2 then RunResult(ValueError(TooFewMdbFiles), None)
      else match Gather(mdbs, db)
        case GatherFailed(e) => RunResult(Raised(e), None)
        case Gathered(es) =>
          if |es| < 2 then RunResult(ValueError(TooFewFeatureClasses), None)
          else
            var p := Sweep(rule, counts, Pairs(es));
            RunResult(OutcomeOf(p), Some([Header] + p.rows))
  }

  /** One more pair folded into the rows written so far. */
  lemma SweepStep(acc: Pass, rule: SkipRule, counts: map<(string, string), nat>, todo: seq<Pair>)
    requires acc.failure.None? && |todo| > 0
    ensures Then(acc, Sweep(rule, counts, todo)) == Then(Then(acc, PairPass(rule, counts, todo[0])), Sweep(rule, counts, todo[1..]))
  {
    ThenAssoc(acc, PairPass(rule, counts, todo[0]), Sweep(rule, counts, todo[1..]));
  }

  /** The body of the inner loop for one pair, with the parent-folder test
      of line 64. */
  method ComparePair(p: Pair, counts: map<(string, string), nat>, scratch: Scratch)
    returns (rows: seq<ReportRow>, failure: Option<string>)
    modifies scratch
    ensures Pass(rows, failure) == PairPass(SameFolder, counts, p)
    ensures scratch.live == if Skips(SameFolder, p.first, p.second) then old(scratch.live) else old(scratch.live) - {IntersectOutput}
  {
    var fc1, fc2 := p.first.path, p.second.path;
    rows, failure := [], None;
    if Dirname(fc1) == Dirname(fc2) {
      return;
    }
    var key := (fc1, fc2);
    if key in counts {
      scratch.Create(IntersectOutput);
      var count := counts[key];
      if count > 0 {
        rows := [[Str(fc1), Str(fc2), Int(count)]];
      }
    } else {
      failure := Some(OverlapError(fc1, fc2));
    }
    scratch.Delete(IntersectOutput);
  }

  lemma {:induction false} SweepAppend(rule: SkipRule, counts: map<(string, string), nat>, a: seq<Pair>, b: seq<Pair>)
    ensures Sweep(rule, counts, a + b) == Then(Sweep(rule, counts, a), Sweep(rule, counts, b))
  {
    if |a| > 0 {
      assert (a + b)[1..] == a[1..] + b;
      SweepAppend(rule, counts, a[1..], b);
      ThenAssoc(PairPass(rule, counts, a[0]), Sweep(rule, counts, a[1..]), Sweep(rule, counts, b));
    } else {
      assert a + b == b;
    }
  }

  /** One more pair of a loop that stops at the first pair that raised. */
  lemma SweepAdvance(rule: SkipRule, counts: map<(string, string), nat>, todo: seq<Pair>, k: nat, acc: Pass, step: Pass)
    requires k < |todo| && acc.failure.None? && step == PairPass(rule, counts, todo[k])
    requires Sweep(rule, counts, todo) == Then(acc, Sweep(rule, counts, todo[k..]))
    ensures Sweep(rule, counts, todo) == Then(Then(acc, step), Sweep(rule, counts, todo[k + 1..]))
  {
    assert todo[k..][1..] == todo[k + 1..];
    SweepStep(acc, rule, counts, todo[k..]);
  }

  /** A loop that stops at the first pair that raised is done once it has
      raised or has no pairs left. */
  lemma SweepDone(rule: SkipRule, counts: map<(string, string), nat>, todo: seq<Pair>, all: Pass, acc: Pass)
    requires all == Then(acc, Sweep(rule, counts, todo))
    requires acc.failure.Some? || todo == []
    ensures all == acc
  {
    if acc.failure.None? {
      assert acc.rows + [] == acc.rows;
    }
  }

  lemma RowAdvance(rule: SkipRule, counts: map<(string, string), nat>, es: seq<Entry>, i: nat, all: Pass, acc: Pass, step: Pass)
    requires i < |es| && acc.failure.None? && step == Sweep(rule, counts, PairsWith(es, i))
    requires all == Then(acc, Sweep(rule, counts, PairsFrom(es, i)))
    ensures all == Then(Then(acc, step), Sweep(rule, counts, PairsFrom(es, i + 1)))
  {
    SweepAppend(rule, counts, PairsWith(es, i), PairsFrom(es, i + 1));
    ThenAssoc(acc, step, Sweep(rule, counts, PairsFrom(es, i + 1)));
  }

  /** The inner loop for row `i`: the pairs (i, j), j > i, until one
      raises. */
  method CompareRow(es: seq<Entry>, i: nat, counts: map<(string, string), nat>, scratch: Scratch)
    returns (rows: seq<ReportRow>, failure: Option<string>)
    requires i < |es|
    modifies scratch
    ensures Pass(rows, failure) == Sweep(SameFolder, counts, PairsWith(es, i))
    ensures scratch.live - {IntersectOutput} == old(scratch.live) - {IntersectOutput}
    ensures IntersectOutput in scratch.live ==> IntersectOutput in old(scratch.live)
  {
    ghost var row := PairsWith(es, i);
    rows, failure := [], None;
    var j := i + 1;
    while j < |es| && failure.None?
      invariant i + 1 <= j <= |es|
      invariant Sweep(SameFolder, counts, row) == Then(Pass(rows, failure), Sweep(SameFolder, counts, row[j - i - 1..]))
      invariant scratch.live - {IntersectOutput} == old(scratch.live) - {IntersectOutput}
      invariant IntersectOutput in scratch.live ==> IntersectOutput in old(scratch.live)
    {
      var more, raised := ComparePair(Pair(i, j, es[i], es[j]), counts, scratch);
      SweepAdvance(SameFolder, counts, row, j - i - 1, Pass(rows, failure), Pass(more, raised));
      rows, failure := rows + more, raised;
      j := j + 1;
    }
  }

  /** The two loops of lines 59-93. The output of
      every intersect is deleted after its pair, whether or not the pair
      raised, so none is left behind. */
  method ComparePairs(es: seq<Entry>, counts: map<(string, string), nat>, scratch: Scratch)
    returns (rows: seq<ReportRow>, failure: Option<string>)
    modifies scratch
    ensures Pass(rows, failure) == Sweep(SameFolder, counts, Pairs(es))
    ensures scratch.live - {IntersectOutput} == old(scratch.live) - {IntersectOutput}
    ensures IntersectOutput in scratch.live ==> IntersectOutput in old(scratch.live)
  {
    ghost var all := Sweep(SameFolder, counts, Pairs(es));
    rows, failure := [], None;
    var i := 0;
    while i < |es| && failure.None?
      invariant 0 <= i <= |es|
      invariant all == Then(Pass(rows, failure), Sweep(SameFolder, counts, PairsFrom(es, i)))
      invariant scratch.live - {IntersectOutput} == old(scratch.live) - {IntersectOutput}
      invariant IntersectOutput in scratch.live ==> IntersectOutput in old(scratch.live)
    {
      var more, raised := CompareRow(es, i, counts, scratch);
      RowAdvance(SameFolder, counts, es, i, all, Pass(rows, failure), Pass(more, raised));
      rows, failure := rows + more, raised;
      i := i + 1;
    }
    SweepDone(SameFolder, counts, PairsFrom(es, i), all, Pass(rows, failure));
  }

  class OverlapsValidator {
    var folderPath: string
    /** 08_overlap_report.csv in the folder. */
    var report: Option<seq<ReportRow>>

    constructor ()
      ensures folderPath == "" && report == None
    {
      folderPath := "";
      report := None;
    }

    method SetFolderPath(folderPath: string)
      modifies this
      ensures this.folderPath == folderPath && report == old(report)
    {
      this.folderPath := folderPath;
    }

    method RunValidation(tree: Option<Dir>, db: Db, counts: map<(string, string), nat>, scratch: Scratch)
      returns (outcome: Outcome)
      modifies this, scratch
      ensures var r := Run(SameFolder, old(folderPath), tree, db, counts);
        outcome == r.outcome && report == (if r.report.Some? then r.report else old(report))
      ensures folderPath == old(folderPath)
      ensures scratch.live - {IntersectOutput} == old(scratch.live) - {IntersectOutput}
      ensures IntersectOutput in scratch.live ==> IntersectOutput in old(scratch.live)
    {
      if folderPath == "" {
        return ValueError(FolderNotSet);
      }
      var mdbFiles := FindMdbFiles(folderPath, tree, DefaultExclusions);
      if |mdbFiles| < 2 {
        return ValueError(TooFewMdbFiles);
      }
      var gathered := GatherFeatureFiles(mdbFiles, db);
      if gathered.GatherFailed? {
        return Raised(gathered.error);
      }
      var featureFiles := gathered.entries;
      if |featureFiles| < 2 {
        return ValueError(TooFewFeatureClasses);
      }
      var rows, failure := ComparePairs(featureFiles, counts, scratch);
      report := Some([Header] + rows);
      outcome := OutcomeOf(Pass(rows, failure));
    }
  }
}
