/** `SegmentCountsValidator` (mdb_validator/segment_counts.py): one row per
    Segments polyline class, giving its number of records. */
module SegmentCounts {
  import opened Values
  import opened Engine
  import opened Utils

  const Header: ReportRow := [Str("Source File"), Str("Feature Class"), Str("Segments Count")]

  /** `GetCount` is the number of records of the class. */
  function CountRow(loc: Located): ReportRow
  {
    [Str(loc.path), Str(loc.name), Int(|loc.fc.records|)]
  }

  /** The rows of one MDB's Segments classes, in listing order; a class of
      another shape type writes nothing. */
  function CountRows(locs: seq<Located>): seq<ReportRow>
  {
    if |locs| == 0 then []
    else
      var loc := locs[|locs| - 1];
      CountRows(locs[..|locs| - 1]) + (if loc.fc.shape == Polyline then [CountRow(loc)] else [])
  }

  /** The number of polyline classes among `locs`. */
  function Polylines(locs: seq<Located>): nat
  {
    if |locs| == 0 then 0
    else Polylines(locs[..|locs| - 1]) + (if locs[|locs| - 1].fc.shape == Polyline then 1 else 0)
  }

  /** Exactly one row per polyline class. */
  lemma {:induction false} CountRowsLength(locs: seq<Located>)
    ensures |CountRows(locs)| == Polylines(locs)
  {
    if |locs| > 0 {
      CountRowsLength(locs[..|locs| - 1]);
    }
  }

  /** A row is written for a class iff it is a polyline class, and the row
      holds that class's path, name and record count. */
  lemma {:induction false} CountRowsMembers(locs: seq<Located>)
    ensures forall r :: r in CountRows(locs) <==> exists loc :: loc in locs && loc.fc.shape == Polyline && r == CountRow(loc)
  {
    if |locs| > 0 {
      CountRowsMembers(locs[..|locs| - 1]);
      assert locs == locs[..|locs| - 1] + [locs[|locs| - 1]];
    }
  }

  /** A list with no polyline class writes nothing. */
  lemma {:induction false} NoPolylineNoRows(locs: seq<Located>)
    requires forall loc :: loc in locs ==> loc.fc.shape != Polyline
    ensures CountRows(locs) == []
  {
    if |locs| > 0 {
      assert locs[|locs| - 1] in locs;
      forall loc | loc in locs[..|locs| - 1] ensures loc.fc.shape != Polyline {
        assert loc in locs;
      }
      NoPolylineNoRows(locs[..|locs| - 1]);
    }
  }

  method CountSegments(locs: seq<Located>) returns (rows: seq<ReportRow>)
    ensures rows == CountRows(locs)
  {
    rows := [];
    var k := 0;
    while k < |locs|
      invariant 0 <= k <= |locs|
      invariant rows == CountRows(locs[..k])
    {
      assert locs[..k + 1][..k] == locs[..k] && locs[..k + 1][k] == locs[k];
      if locs[k].fc.shape == Polyline {
        var count := |locs[k].fc.records|;
        rows := rows + [[Str(locs[k].path), Str(locs[k].name), Int(count)]];
      }
      k := k + 1;
    }
    assert locs[..k] == locs;
  }

  // ------------------------------------------------------------- the run

  /** One MDB: an MDB the engine cannot open raises. */
  function MdbPass(mdb: string, db: Db): Pass
  {
    match FeatureClassesOf(mdb, ["Segments"], db)
    case None => Pass([], Some(CannotOpen(mdb)))
    case Some(locs) => Pass(CountRows(locs), None)
  }

  function MdbPasses(mdbs: seq<string>, db: Db): (ps: seq<Pass>)
    ensures |ps| == |mdbs| && forall i :: 0 <= i < |mdbs| ==> ps[i] == MdbPass(mdbs[i], db)
  {
    seq(|mdbs|, i requires 0 <= i < |mdbs| => MdbPass(mdbs[i], db))
  }

  function Run(folder: string, tree: Option<Dir>, db: Db): RunResult
  {
    if folder == "" then RunResult(ValueError(FolderNotSet), None)
    else
      var mdbs := MdbFiles(folder, tree, DefaultExclusions);
      if |mdbs| == 0 then RunResult(ValueError(NoMdbFiles), None)
      else
        var p := Chain(MdbPasses(mdbs, db));
        RunResult(OutcomeOf(p), Some([Header] + p.rows))
  }

  /** Every row written for an MDB counts the records of one of its polyline
      classes named exactly Segments. */
  lemma MdbRowsCounted(mdb: string, db: Db, r: ReportRow)
    requires r in MdbPass(mdb, db).rows
    ensures exists loc :: (loc in FeatureClassesOf(mdb, ["Segments"], db).value
      && loc.fc.name == "Segments" && loc.fc.shape == Polyline && r == [Str(loc.path), Str("Segments"), Int(|loc.fc.records|)])
  {
    var locs := FeatureClassesOf(mdb, ["Segments"], db).value;
    CountRowsMembers(locs);
    var loc :| loc in locs && loc.fc.shape == Polyline && r == CountRow(loc);
    Resolved(mdb, ["Segments"], db, loc);
  }

  /** An MDB that opens writes exactly one row per polyline Segments class
      and cannot make the run fail. */
  lemma MdbRowCount(mdb: string, db: Db)
    requires FeatureClassesOf(mdb, ["Segments"], db).Some?
    ensures MdbPass(mdb, db).failure == None
    ensures |MdbPass(mdb, db).rows| == Polylines(FeatureClassesOf(mdb, ["Segments"], db).value)
  {
    CountRowsLength(FeatureClassesOf(mdb, ["Segments"], db).value);
  }

  method ScanMdb(mdb: string, db: Db) returns (rows: seq<ReportRow>, failure: Option<string>)
    ensures Pass(rows, failure) == MdbPass(mdb, db)
  {
    var segments := GetFeatureClasses(mdb, ["Segments"], db);
    if segments.None? {
      return [], Some(CannotOpen(mdb));
    }
    rows := CountSegments(segments.value);
    failure := None;
  }

  method ScanMdbs(mdbs: seq<string>, db: Db) returns (rows: seq<ReportRow>, failure: Option<string>)
    ensures Pass(rows, failure) == Chain(MdbPasses(mdbs, db))
  {
    ghost var ps := MdbPasses(mdbs, db);
    rows, failure := [], None;
    var i := 0;
    while i < |mdbs| && failure.None?
      invariant 0 <= i <= |mdbs|
      invariant Chain(ps) == Then(Pass(rows, failure), Chain(ps[i..]))
    {
      ChainStep(Pass(rows, failure), ps, i);
      var more, raised := ScanMdb(mdbs[i], db);
      rows, failure := rows + more, raised;
      i := i + 1;
    }
  }

  class SegmentCountsValidator {
    var folderPath: string
    /** 06_segment_counts_report.csv in the folder. */
    var report: Option<seq<ReportRow>>

    constructor ()
      ensures folderPath == "" && report == None
    {
      folderPath := "";
      report := None;
    }

    method SetFolderPath(folderPath: string)
      modifies this
      ensures this.folderPath == folderPath && report == old(report)
    {
      this.folderPath := folderPath;
    }

    method RunValidation(tree: Option<Dir>, db: Db) returns (outcome: Outcome)
      modifies this
      ensures var r := Run(old(folderPath), tree, db);
        outcome == r.outcome && report == (if r.report.Some? then r.report else old(report))
      ensures folderPath == old(folderPath)
    {
      if folderPath == "" {
        return ValueError(FolderNotSet);
      }
      var mdbFiles := FindMdbFiles(folderPath, tree, DefaultExclusions);
      if mdbFiles == [] {
        return ValueError(NoMdbFiles);
      }
      var rows, failure := ScanMdbs(mdbFiles, db);
      report := Some([Header] + rows);
      outcome := OutcomeOf(Pass(rows, failure));
    }
  }
}
