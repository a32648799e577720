/** The stand-alone script Overlaping.py: the .mdb files directly in one
    folder, their Parcel, Construction and Segments classes, and every pair
    of classes from two different MDBs whose intersection is not empty. An
    engine error on one pair is caught and the next pair is compared. */
module Overlaping {
  import opened Values
  import opened Engine
  import ParcelReport
  import Overlaps

  type Entry = Overlaps.Entry
  type Pair = Overlaps.Pair

  const ReportName: string := "Overlapping_Report.csv"

  const TempPrefix: string := "in_memory/intersect_output_"

  /** Line 57: the pair (i, j) intersects into its own in-memory output. */
  function TempName(i: nat, j: nat): string
  {
    TempPrefix + NatToStr(i) + "_" + NatToStr(j)
  }

  /** In digits, an underscore and more text, the first underscore comes
      right after the digits. */
  lemma FirstUnderscore(a: string, b: string)
    requires AllDigits(a)
    ensures (a + "_" + b)[|a|] == '_'
    ensures forall k :: 0 <= k < |a| ==> (a + "_" + b)[k] != '_'
  {
  }

  /** Two digit strings joined by an underscore split back uniquely. */
  lemma SplitAtUnderscore(a: string, b: string, c: string, d: string)
    requires AllDigits(a) && AllDigits(c)
    requires a + "_" + b == c + "_" + d
    ensures a == c && b == d
  {
    var x := a + "_" + b;
    FirstUnderscore(a, b);
    FirstUnderscore(c, d);
    assert a == x[..|a|] == c;
    assert b == x[|a| + 1..] == d;
  }

  /** No two pairs share a temporary output. */
  lemma TempNamesDistinct(i: nat, j: nat, i': nat, j': nat)
    requires (i, j) != (i', j')
    ensures TempName(i, j) != TempName(i', j')
  {
    if TempName(i, j) == TempName(i', j') {
      var x, y := TempName(i, j), TempName(i', j');
      assert x[|TempPrefix|..] == NatToStr(i) + "_" + NatToStr(j);
      assert y[|TempPrefix|..] == NatToStr(i') + "_" + NatToStr(j');
      SplitAtUnderscore(NatToStr(i), NatToStr(j), NatToStr(i'), NatToStr(j'));
      NatToStrInjective(i, i');
      NatToStrInjective(j, j');
    }
  }

  /** The outputs of the compared pairs (i, k), i < k < j: those whose
      classes come from two MDBs. */
  function RowTemps(es: seq<Entry>, i: nat, j: nat): set<string>
    requires i < |es| && j <= |es|
  {
    if j <= i + 1 then {}
    else RowTemps(es, i, j - 1) + (if es[i].mdb != es[j - 1].mdb then {TempName(i, j - 1)} else {})
  }

  /** The outputs of the compared pairs of the first `n` rows. */
  function Temps(es: seq<Entry>, n: nat): set<string>
    requires n <= |es|
  {
    if n == 0 then {} else Temps(es, n - 1) + RowTemps(es, n - 1, |es|)
  }

  lemma {:induction false} RowTempsMembers(es: seq<Entry>, i: nat, j: nat)
    requires i < |es| && j <= |es|
    ensures forall x :: x in RowTemps(es, i, j) <==>
      exists k :: i < k < j && es[i].mdb != es[k].mdb && x == TempName(i, k)
  {
    if j > i + 1 {
      RowTempsMembers(es, i, j - 1);
      var last := if es[i].mdb != es[j - 1].mdb then {TempName(i, j - 1)} else {};
      assert RowTemps(es, i, j) == RowTemps(es, i, j - 1) + last;
      forall x | x in last ensures exists k :: i < k < j && es[i].mdb != es[k].mdb && x == TempName(i, k) {
        assert x == TempName(i, j - 1);
      }
    }
  }

  /** The outputs are exactly those of the pairs (a, b), a < b, of two
      MDBs. */
  lemma {:induction false} TempsMembers(es: seq<Entry>, n: nat)
    requires n <= |es|
    ensures forall x :: x in Temps(es, n) <==>
      exists a, b :: 0 <= a < n && a < b < |es| && es[a].mdb != es[b].mdb && x == TempName(a, b)
  {
    if n > 0 {
      TempsMembers(es, n - 1);
      RowTempsMembers(es, n - 1, |es|);
    }
  }

  // ------------------------------------------------------------ the pairs

  /** One pair (lines 50-71): skipped when both classes come from one MDB;
      an ExecuteError (the engine has no count for the pair) is caught and
      writes nothing; otherwise a row when the count is positive. */
  function PairRows(counts: map<(string, string), nat>, p: Pair): seq<ReportRow>
  {
    Overlaps.PairPass(Overlaps.SameMdb, counts, p).rows
  }

  /** The rows of the pairs in turn; no pair stops the loop. */
  function CaughtRows(counts: map<(string, string), nat>, todo: seq<Pair>): seq<ReportRow>
  {
    if |todo| == 0 then [] else PairRows(counts, todo[0]) + CaughtRows(counts, todo[1..])
  }

  lemma {:induction false} CaughtAppend(counts: map<(string, string), nat>, a: seq<Pair>, b: seq<Pair>)
    ensures CaughtRows(counts, a + b) == CaughtRows(counts, a) + CaughtRows(counts, b)
  {
    if |a| == 0 {
      assert a + b == b;
    } else {
      assert (a + b)[1..] == a[1..] + b;
      CaughtAppend(counts, a[1..], b);
    }
  }

  /** Every row reports a pair of classes from two different MDBs with a
      positive count. */
  lemma {:induction false} CaughtRowsSound(counts: map<(string, string), nat>, todo: seq<Pair>, r: ReportRow)
    requires r in CaughtRows(counts, todo)
    ensures exists p :: (p in todo && p.first.mdb != p.second.mdb && (p.first.path, p.second.path) in counts
      && counts[(p.first.path, p.second.path)] > 0 && r == Overlaps.OverlapRow(p, counts[(p.first.path, p.second.path)]))
  {
    if r !in PairRows(counts, todo[0]) {
      CaughtRowsSound(counts, todo[1..], r);
      var p :| p in todo[1..] && p.first.mdb != p.second.mdb && (p.first.path, p.second.path) in counts
        && counts[(p.first.path, p.second.path)] > 0 && r == Overlaps.OverlapRow(p, counts[(p.first.path, p.second.path)]);
      assert p in todo;
    }
  }

  /** Every pair of classes from two MDBs with a positive count is reported,
      whatever other pairs raised. */
  lemma {:induction false} CaughtRowsComplete(counts: map<(string, string), nat>, todo: seq<Pair>, k: nat)
    requires k < |todo| && todo[k].first.mdb != todo[k].second.mdb
    requires (todo[k].first.path, todo[k].second.path) in counts && counts[(todo[k].first.path, todo[k].second.path)] > 0
    ensures Overlaps.OverlapRow(todo[k], counts[(todo[k].first.path, todo[k].second.path)]) in CaughtRows(counts, todo)
  {
    if k > 0 {
      CaughtRowsComplete(counts, todo[1..], k - 1);
    }
  }

  /** Compared with the validator, which re-raises: it writes a prefix of
      what the script writes, and the same rows when no pair raised. */
  lemma {:induction false} ReRaisingWritesPrefix(counts: map<(string, string), nat>, todo: seq<Pair>)
    ensures Overlaps.Sweep(Overlaps.SameMdb, counts, todo).rows <= CaughtRows(counts, todo)
    ensures Overlaps.Sweep(Overlaps.SameMdb, counts, todo).failure.None? ==>
      Overlaps.Sweep(Overlaps.SameMdb, counts, todo).rows == CaughtRows(counts, todo)
  {
    if |todo| > 0 {
      ReRaisingWritesPrefix(counts, todo[1..]);
    }
  }

  /** Every row pairs classes i < j of two different MDBs. */
  lemma ScriptRowsCrossMdbs(es: seq<Entry>, counts: map<(string, string), nat>, r: ReportRow)
    requires r in CaughtRows(counts, Overlaps.Pairs(es))
    ensures exists i, j :: (0 <= i < j < |es| && es[i].mdb != es[j].mdb
      && (es[i].path, es[j].path) in counts && counts[(es[i].path, es[j].path)] > 0
      && r == [Str(es[i].path), Str(es[j].path), Int(counts[(es[i].path, es[j].path)])])
  {
    CaughtRowsSound(counts, Overlaps.Pairs(es), r);
    Overlaps.PairsExact(es);
    var p :| p in Overlaps.Pairs(es) && p.first.mdb != p.second.mdb && (p.first.path, p.second.path) in counts
      && counts[(p.first.path, p.second.path)] > 0 && r == Overlaps.OverlapRow(p, counts[(p.first.path, p.second.path)]);
    assert 0 <= p.i < p.j < |es|;
  }

  /** Every pair i < j of classes of two different MDBs with a positive
      count is reported. */
  lemma CrossMdbPairAlwaysReported(es: seq<Entry>, counts: map<(string, string), nat>, i: nat, j: nat)
    requires i < j < |es| && es[i].mdb != es[j].mdb
    requires (es[i].path, es[j].path) in counts && counts[(es[i].path, es[j].path)] > 0
    ensures [Str(es[i].path), Str(es[j].path), Int(counts[(es[i].path, es[j].path)])] in CaughtRows(counts, Overlaps.Pairs(es))
  {
    Overlaps.PairsExact(es);
    var p := Overlaps.Pair(i, j, es[i], es[j]);
    assert p in Overlaps.Pairs(es);
    var k :| 0 <= k < |Overlaps.Pairs(es)| && Overlaps.Pairs(es)[k] == p;
    CaughtRowsComplete(counts, Overlaps.Pairs(es), k);
  }

  // ------------------------------------------------------------- the script

  /** How the script ends: no folder chosen, fewer than two MDB files (with
      how many were found), a crash, or the report written. */
  datatype ScriptEnd =
    | NoFolder
    | TooFewMdbs(found: nat)
    | Crashed(error: string)
    | Written(csv: string, classes: seq<Entry>, rows: seq<ReportRow>)

  /** The whole script. `entries` is what `os.listdir` returns for the
      folder, None when it raises. An MDB the engine cannot open makes the
      class listing fail before the report is opened. */
  function Script(folder: string, entries: Option<seq<string>>, db: Db, counts: map<(string, string), nat>): ScriptEnd
  {
    if folder == "" then NoFolder
    else if entries.None? then Crashed("cannot list " + folder)
    else
      var mdbs := ParcelReport.MdbEntries(folder, entries.value);
      if |mdbs| < 2 then TooFewMdbs(|mdbs|)
      else match Overlaps.Gather(mdbs, db)
        case GatherFailed(e) => Crashed(e)
        case Gathered(es) => Written(Join(folder, ReportName), es, [Overlaps.Header] + CaughtRows(counts, Overlaps.Pairs(es)))
  }

  /** The report is written only for a chosen, listable folder with at
      least two MDB files, and always starts with the header, even with
      fewer than two classes. */
  lemma ScriptReport(folder: string, entries: Option<seq<string>>, db: Db, counts: map<(string, string), nat>)
    requires Script(folder, entries, db, counts).Written?
    ensures var rows := Script(folder, entries, db, counts).rows;
      |rows| >= 1 && rows[0] == Overlaps.Header
    ensures folder != "" && entries.Some? && |ParcelReport.MdbEntries(folder, entries.value)| >= 2
  {
  }

  /** The body of the inner loop for the pair (i, j). */
  method ComparePair(p: Pair, counts: map<(string, string), nat>, scratch: Scratch) returns (rows: seq<ReportRow>)
    modifies scratch
    ensures rows == PairRows(counts, p)
    ensures scratch.live == if p.first.mdb == p.second.mdb then old(scratch.live) else old(scratch.live) - {TempName(p.i, p.j)}
  {
    var fc1, fc2 := p.first.path, p.second.path;
    rows := [];
    if p.first.mdb == p.second.mdb {
      return;
    }
    var intersectOutput := TempName(p.i, p.j);
    var key := (fc1, fc2);
    if key in counts {
      scratch.Create(intersectOutput);
      var count := counts[key];
      if count > 0 {
        rows := [[Str(fc1), Str(fc2), Int(count)]];
      }
    }
    scratch.Delete(intersectOutput);
  }

  /** One more pair of a loop that appends each pair's rows in turn. */
  lemma CaughtAdvance(counts: map<(string, string), nat>, todo: seq<Pair>, k: nat, done: seq<ReportRow>, more: seq<ReportRow>)
    requires k < |todo| && more == PairRows(counts, todo[k])
    requires CaughtRows(counts, todo) == done + CaughtRows(counts, todo[k..])
    ensures CaughtRows(counts, todo) == (done + more) + CaughtRows(counts, todo[k + 1..])
  {
    assert todo[k..][1..] == todo[k + 1..];
  }

  /** One more row of the outer loop. */
  lemma RowAdvance(counts: map<(string, string), nat>, es: seq<Entry>, i: nat, all: seq<ReportRow>, done: seq<ReportRow>, more: seq<ReportRow>)
    requires i < |es| && more == CaughtRows(counts, Overlaps.PairsWith(es, i))
    requires all == done + CaughtRows(counts, Overlaps.PairsFrom(es, i))
    ensures all == (done + more) + CaughtRows(counts, Overlaps.PairsFrom(es, i + 1))
  {
    CaughtAppend(counts, Overlaps.PairsWith(es, i), Overlaps.PairsFrom(es, i + 1));
  }

  /** One more pair's output deleted, when it was compared. */
  lemma RowTempsAdvance(es: seq<Entry>, i: nat, j: nat, before: set<string>, mid: set<string>, now: set<string>)
    requires i < j < |es| && mid == before - RowTemps(es, i, j)
    requires now == if es[i].mdb == es[j].mdb then mid else mid - {TempName(i, j)}
    ensures now == before - RowTemps(es, i, j + 1)
  {
  }

  /** The inner loop for row `i`. */
  method CompareRow(es: seq<Entry>, i: nat, counts: map<(string, string), nat>, scratch: Scratch) returns (rows: seq<ReportRow>)
    requires i < |es|
    modifies scratch
    ensures rows == CaughtRows(counts, Overlaps.PairsWith(es, i))
    ensures scratch.live == old(scratch.live) - RowTemps(es, i, |es|)
  {
    ghost var row, before := Overlaps.PairsWith(es, i), scratch.live;
    rows := [];
    var j := i + 1;
    while j < |es|
      invariant i + 1 <= j <= |es|
      invariant CaughtRows(counts, row) == rows + CaughtRows(counts, row[j - i - 1..])
      invariant scratch.live == before - RowTemps(es, i, j)
    {
      assert row[j - i - 1] == Overlaps.Pair(i, j, es[i], es[j]);
      ghost var mid := scratch.live;
      var more := ComparePair(Overlaps.Pair(i, j, es[i], es[j]), counts, scratch);
      RowTempsAdvance(es, i, j, before, mid, scratch.live);
      CaughtAdvance(counts, row, j - i - 1, rows, more);
      rows := rows + more;
      j := j + 1;
    }
  }

  /** Lines 48-71. The output of every compared pair is deleted after it,
      and nothing else is. */
  method ComparePairs(es: seq<Entry>, counts: map<(string, string), nat>, scratch: Scratch) returns (rows: seq<ReportRow>)
    modifies scratch
    ensures rows == CaughtRows(counts, Overlaps.Pairs(es))
    ensures scratch.live == old(scratch.live) - Temps(es, |es|)
  {
    ghost var all := CaughtRows(counts, Overlaps.Pairs(es));
    rows := [];
    var i := 0;
    while i < |es|
      invariant 0 <= i <= |es|
      invariant all == rows + CaughtRows(counts, Overlaps.PairsFrom(es, i))
      invariant scratch.live == old(scratch.live) - Temps(es, i)
    {
      var more := CompareRow(es, i, counts, scratch);
      RowAdvance(counts, es, i, all, rows, more);
      rows := rows + more;
      i := i + 1;
    }
  }

  method CheckOverlaps(folder: string, entries: Option<seq<string>>, db: Db, counts: map<(string, string), nat>, scratch: Scratch)
    returns (end: ScriptEnd)
    modifies scratch
    ensures end == Script(folder, entries, db, counts)
    ensures scratch.live == if end.Written? then old(scratch.live) - Temps(end.classes, |end.classes|) else old(scratch.live)
  {
    if folder == "" {
      return NoFolder;
    }
    if entries.None? {
      return Crashed("cannot list " + folder);
    }
    var mdbFiles := ParcelReport.ListMdbFiles(folder, entries.value);
    if |mdbFiles| < 2 {
      return TooFewMdbs(|mdbFiles|);
    }
    var outputCsv := Join(folder, ReportName);
    var gathered := Overlaps.GatherFeatureFiles(mdbFiles, db);
    if gathered.GatherFailed? {
      return Crashed(gathered.error);
    }
    var rows := ComparePairs(gathered.entries, counts, scratch);
    return Written(outputCsv, gathered.entries, [Overlaps.Header] + rows);
  }
}
