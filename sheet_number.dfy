/** `SheetNumberValidator` (mdb_validator/sheet_number.py): each MDB's
    root-level Parcel class is intersected with a grid-sheet template, and
    every piece whose PageNumber and GRIDS1 print differently is written to a
    per-MDB mismatch report. The intersection the engine computes for an MDB
    is an input (`inter`); an MDB missing from it makes the tool raise. */
module SheetNumber {
  import opened Values
  import opened Engine
  import opened Utils

  /** Where the grid-sheet templates live. */
  const TemplatesDir: string := "D:\\check_clean\\FilesCheckingmdb\\templates"

  const Header: ReportRow := [Str("Source"), Str("WARDNO"), Str("FID_Parcel"), Str("PARCELNO"), Str("PageNumber"), Str("GRIDS1")]

  const CursorFields: seq<string> := ["PageNumber", "GRIDS1", "WARDNO", "FID_Parcel", "PARCELNO"]

  function OutputDir(folder: string): string
  {
    Join(folder, "SheetNumberReports")
  }

  /** The intersection output, reused for every MDB. */
  function IntersectOutput(folder: string): string
  {
    Join(OutputDir(folder), "Intersect.shp")
  }

  function ReportName(folder: string, mdb: string): string
  {
    Join(OutputDir(folder), "Mismatch_" + Basename(mdb) + ".csv")
  }

  /** `arcpy.Exists(mdb/Parcel)`: a class named Parcel at the root of an MDB
      the engine can open. */
  predicate HasRootParcel(mdb: string, db: Db)
  {
    mdb in db && exists fc :: fc in db[mdb].rootClasses && fc.name == "Parcel"
  }

  /** Line 71: the two values print differently. */
  predicate Mismatch(page: Value, grid: Value)
  {
    ToStr(page) != ToStr(grid)
  }

  /** An integer PageNumber matches exactly the same integer or its decimal
      text. */
  lemma IntMatches(n: nat, grid: Value)
    ensures !Mismatch(Int(n), grid) <==> grid == Int(n) || grid == Str(NatToStr(n))
  {
    StrIsDecimal(grid, n);
  }

  /** A double never matches an integer, even of the same value: 5557.0
      prints as "5557.0". */
  lemma DoubleNeverMatchesInt(r: real, n: nat)
    ensures Mismatch(Real(r), Int(n))
  {
    RealNeverDecimal(r, n);
  }

  /** Two NULLs both print "None" and match. */
  lemma NullsMatch()
    ensures !Mismatch(Null, Null) && Mismatch(Null, Str(""))
  {
    assert ToStr(Null)[0] == 'N';
  }

  function MismatchRow(parcelPath: string, rec: Record): ReportRow
  {
    [Str(parcelPath), Get(rec, "WARDNO"), Get(rec, "FID_Parcel"), Get(rec, "PARCELNO"), Get(rec, "PageNumber"), Get(rec, "GRIDS1")]
  }

  function MismatchRows(parcelPath: string, recs: seq<Record>): seq<ReportRow>
  {
    if |recs| == 0 then []
    else
      var rec := recs[|recs| - 1];
      MismatchRows(parcelPath, recs[..|recs| - 1])
        + (if Mismatch(Get(rec, "PageNumber"), Get(rec, "GRIDS1")) then [MismatchRow(parcelPath, rec)] else [])
  }

  /** A row is written for a piece iff its PageNumber and GRIDS1 mismatch. */
  lemma {:induction false} MismatchRowsMembers(parcelPath: string, recs: seq<Record>)
    ensures forall r :: r in MismatchRows(parcelPath, recs) <==>
      exists rec :: rec in recs && Mismatch(Get(rec, "PageNumber"), Get(rec, "GRIDS1")) && r == MismatchRow(parcelPath, rec)
  {
    if |recs| > 0 {
      MismatchRowsMembers(parcelPath, recs[..|recs| - 1]);
      assert recs == recs[..|recs| - 1] + [recs[|recs| - 1]];
    }
  }

  method ReadCursor(parcelPath: string, recs: seq<Record>) returns (rows: seq<ReportRow>)
    ensures rows == MismatchRows(parcelPath, recs)
  {
    rows := [];
    var k := 0;
    while k < |recs|
      invariant 0 <= k <= |recs|
      invariant rows == MismatchRows(parcelPath, recs[..k])
    {
      assert recs[..k + 1][..k] == recs[..k] && recs[..k + 1][k] == recs[k];
      if ToStr(Get(recs[k], "PageNumber")) != ToStr(Get(recs[k], "GRIDS1")) {
        rows := rows + [MismatchRow(parcelPath, recs[k])];
      }
      k := k + 1;
    }
    assert recs[..k] == recs;
  }

  // ------------------------------------------------------------- the run

  /** What one MDB leads to. `Wrote` is a report file opened, with what was
      written to it and the error raised while reading the cursor, if any. */
  datatype Step =
    | NoParcel
    | IntersectFailed(error: string)
    | NoPageNumber
    | Wrote(name: string, rows: seq<ReportRow>, failure: Option<string>)

  function IntersectError(mdb: string): string { "intersect failed for " + mdb }

  function MdbStep(folder: string, mdb: string, db: Db, inter: map<string, FeatureClass>): Step
  {
    if !HasRootParcel(mdb, db) then NoParcel
    else if mdb !in inter then IntersectFailed(IntersectError(mdb))
    else
      var out := inter[mdb];
      if "PageNumber" !in FieldNames(out) then NoPageNumber
      else if !HasFields(out, CursorFields) then Wrote(ReportName(folder, mdb), [Header], Some(MissingField(IntersectOutput(folder))))
      else Wrote(ReportName(folder, mdb), [Header] + MismatchRows(Join(mdb, "Parcel"), out.records), None)
  }

  /** The report files written so far, by name, and the error that ended the
      loop, if any. */
  datatype Progress = Progress(reports: map<string, seq<ReportRow>>, failure: Option<string>)

  function Apply(p: Progress, s: Step): Progress
  {
    match s
    case NoParcel => p
    case IntersectFailed(e) => Progress(p.reports, Some(e))
    case NoPageNumber => p
    case Wrote(name, rows, f) => Progress(p.reports[name := rows], f)
  }

  /** The loop over `mdbs`, stopped by the first error. */
  function Sweep(folder: string, mdbs: seq<string>, db: Db, inter: map<string, FeatureClass>): Progress
  {
    if |mdbs| == 0 then Progress(map[], None)
    else
      var p := Sweep(folder, mdbs[..|mdbs| - 1], db, inter);
      if p.failure.Some? then p else Apply(p, MdbStep(folder, mdbs[|mdbs| - 1], db, inter))
  }

  /** Whether the intersection output exists after one MDB's step: an MDB
      that reaches the intersect deletes the old output, and a successful
      intersect writes a new one. */
  function LiveAfter(s: Step, before: bool): bool
  {
    match s
    case NoParcel => before
    case IntersectFailed(_) => false
    case NoPageNumber => true
    case Wrote(_, _, _) => true
  }

  /** Whether the intersection output exists after the loop. */
  function OutputLive(folder: string, mdbs: seq<string>, db: Db, inter: map<string, FeatureClass>, before: bool): bool
  {
    if |mdbs| == 0 then before
    else
      var front := mdbs[..|mdbs| - 1];
      var live := OutputLive(folder, front, db, inter, before);
      if Sweep(folder, front, db, inter).failure.Some? then live
      else LiveAfter(MdbStep(folder, mdbs[|mdbs| - 1], db, inter), live)
  }

  /** Once an MDB has raised, the MDBs after it are never processed. */
  lemma {:induction false} FailureSticks(folder: string, mdbs: seq<string>, i: nat, db: Db, inter: map<string, FeatureClass>)
    requires i <= |mdbs| && Sweep(folder, mdbs[..i], db, inter).failure.Some?
    ensures Sweep(folder, mdbs, db, inter) == Sweep(folder, mdbs[..i], db, inter)
    decreases |mdbs| - i
  {
    if i < |mdbs| {
      assert mdbs[..i + 1][..i] == mdbs[..i];
      FailureSticks(folder, mdbs, i + 1, db, inter);
    } else {
      assert mdbs[..i] == mdbs;
    }
  }

  /** An MDB without a root-level Parcel, or whose intersection has no
      PageNumber field, is skipped: no report, no error, and the loop goes on
      with the next MDB. */
  lemma SkippedMdbChangesNothing(folder: string, mdbs: seq<string>, mdb: string, db: Db, inter: map<string, FeatureClass>)
    requires MdbStep(folder, mdb, db, inter).NoParcel? || MdbStep(folder, mdb, db, inter).NoPageNumber?
    ensures Sweep(folder, mdbs + [mdb], db, inter) == Sweep(folder, mdbs, db, inter)
  {
    assert (mdbs + [mdb])[..|mdbs|] == mdbs;
  }

  /** A report file as the loop writes it: named after an MDB of the list
      that has a root-level Parcel, starting with the header, and then only
      rows of that MDB's Parcel whose PageNumber and GRIDS1 mismatch. */
  ghost predicate ReportOf(folder: string, mdbs: seq<string>, db: Db, name: string, rows: seq<ReportRow>)
  {
    exists m :: m in mdbs && HasRootParcel(m, db) && name == ReportName(folder, m)
      && |rows| > 0 && rows[0] == Header
      && forall j :: 1 <= j < |rows| ==>
           |rows[j]| == 6 && rows[j][0] == Str(Join(m, "Parcel")) && Mismatch(rows[j][4], rows[j][5])
  }

  lemma StepReport(folder: string, mdbs: seq<string>, m: string, db: Db, inter: map<string, FeatureClass>)
    requires m in mdbs && MdbStep(folder, m, db, inter).Wrote?
    ensures ReportOf(folder, mdbs, db, MdbStep(folder, m, db, inter).name, MdbStep(folder, m, db, inter).rows)
  {
    var s := MdbStep(folder, m, db, inter);
    if s.failure.None? {
      var body := MismatchRows(Join(m, "Parcel"), inter[m].records);
      MismatchRowsMembers(Join(m, "Parcel"), inter[m].records);
      forall j | 1 <= j < |s.rows|
        ensures |s.rows[j]| == 6 && s.rows[j][0] == Str(Join(m, "Parcel")) && Mismatch(s.rows[j][4], s.rows[j][5])
      {
        assert s.rows[j] == body[j - 1];
        assert s.rows[j] in body;
      }
    }
  }

  lemma ReportOfLonger(folder: string, mdbs: seq<string>, more: seq<string>, db: Db, name: string, rows: seq<ReportRow>)
    requires ReportOf(folder, mdbs, db, name, rows)
    ensures ReportOf(folder, mdbs + more, db, name, rows)
  {
    var m :| m in mdbs && HasRootParcel(m, db) && name == ReportName(folder, m)
      && |rows| > 0 && rows[0] == Header
      && forall j :: 1 <= j < |rows| ==>
           |rows[j]| == 6 && rows[j][0] == Str(Join(m, "Parcel")) && Mismatch(rows[j][4], rows[j][5]);
    assert m in mdbs + more;
  }

  /** Every report file written comes from one MDB of the list and holds the
      header and that MDB's mismatched pieces only. */
  lemma {:induction false} ReportsWellFormed(folder: string, mdbs: seq<string>, db: Db, inter: map<string, FeatureClass>)
    ensures forall name :: name in Sweep(folder, mdbs, db, inter).reports ==>
      ReportOf(folder, mdbs, db, name, Sweep(folder, mdbs, db, inter).reports[name])
  {
    if |mdbs| > 0 {
      var front, m := mdbs[..|mdbs| - 1], mdbs[|mdbs| - 1];
      assert mdbs == front + [m];
      ReportsWellFormed(folder, front, db, inter);
      var p := Sweep(folder, front, db, inter);
      forall name | name in p.reports ensures ReportOf(folder, mdbs, db, name, p.reports[name]) {
        ReportOfLonger(folder, front, [m], db, name, p.reports[name]);
      }
      if p.failure.None? && MdbStep(folder, m, db, inter).Wrote? {
        StepReport(folder, mdbs, m, db, inter);
      }
    }
  }

  /** MDBs in different folders with the same file name share one report
      name, so the later one's report replaces the earlier one's. */
  lemma SameFileNameSameReport(folder: string, a: string, b: string, f: string)
    requires a != "" && !IsSep(a[|a| - 1]) && b != "" && !IsSep(b[|b| - 1]) && NoSep(f)
    ensures ReportName(folder, Join(a, f)) == ReportName(folder, Join(b, f))
  {
    SplitJoin(a, f);
    SplitJoin(b, f);
  }

  /** The result of `run_validation`: how it ended and the report files. */
  datatype SheetRun = SheetRun(outcome: Outcome, reports: map<string, seq<ReportRow>>)

  /** `templates` is the set of paths `arcpy.Exists` finds. Unlike the other
      validators, no MDB file at all is not an error. */
  function Run(folder: string, gridsheet: string, templates: set<string>, tree: Option<Dir>, db: Db, inter: map<string, FeatureClass>): SheetRun
  {
    if folder == "" then SheetRun(ValueError(FolderNotSet), map[])
    else if gridsheet == "" then SheetRun(ValueError(GridsheetNotSet), map[])
    else if Join(TemplatesDir, gridsheet) !in templates then SheetRun(ValueError(GridsheetNotFound), map[])
    else
      var p := Sweep(folder, MdbFiles(folder, tree, DefaultExclusions), db, inter);
      SheetRun(if p.failure.Some? then Raised(p.failure.value) else Ok, p.reports)
  }

  /** The three settings are checked in order, before any MDB is read. */
  lemma RunValueErrors(folder: string, gridsheet: string, templates: set<string>, tree: Option<Dir>, db: Db, inter: map<string, FeatureClass>)
    ensures var r := Run(folder, gridsheet, templates, tree, db, inter);
      r.outcome.ValueError? <==> folder == "" || gridsheet == "" || Join(TemplatesDir, gridsheet) !in templates
    ensures var r := Run(folder, gridsheet, templates, tree, db, inter);
      r.outcome.ValueError? ==> r.reports == map[]
  {
  }

  /** The body of the loop for one MDB (lines 40-72), with the
      intersection output in `scratch`: a stale output is deleted before
      the intersect. */
  method ScanMdb(folder: string, mdb: string, db: Db, inter: map<string, FeatureClass>,
                 reports: map<string, seq<ReportRow>>, scratch: Scratch)
    returns (written: map<string, seq<ReportRow>>, failure: Option<string>)
    modifies scratch
    ensures Progress(written, failure) == Apply(Progress(reports, None), MdbStep(folder, mdb, db, inter))
    ensures var shp := IntersectOutput(folder);
      scratch.live == (old(scratch.live) - {shp})
        + (if LiveAfter(MdbStep(folder, mdb, db, inter), shp in old(scratch.live)) then {shp} else {})
  {
    written, failure := reports, None;
    if !HasRootParcel(mdb, db) {
      return;
    }
    var intersectShp := IntersectOutput(folder);
    if intersectShp in scratch.live {
      scratch.Delete(intersectShp);
    }
    if mdb !in inter {
      failure := Some(IntersectError(mdb));
      return;
    }
    scratch.Create(intersectShp);
    var out := inter[mdb];
    var fields := FieldNames(out);
    if "PageNumber" !in fields {
      return;
    }
    var mismatchCsv := ReportName(folder, mdb);
    written := written[mismatchCsv := [Header]];
    if !HasFields(out, CursorFields) {
      failure := Some(MissingField(intersectShp));
      return;
    }
    var rows := ReadCursor(Join(mdb, "Parcel"), out.records);
    written := written[mismatchCsv := [Header] + rows];
  }

  /** The loop of lines 39-77: stops at the first error. */
  method ScanMdbs(folder: string, mdbs: seq<string>, db: Db, inter: map<string, FeatureClass>, scratch: Scratch)
    returns (reports: map<string, seq<ReportRow>>, failure: Option<string>)
    modifies scratch
    ensures Progress(reports, failure) == Sweep(folder, mdbs, db, inter)
    ensures var shp := IntersectOutput(folder);
      scratch.live == (old(scratch.live) - {shp}) + (if OutputLive(folder, mdbs, db, inter, shp in old(scratch.live)) then {shp} else {})
  {
    var intersectShp := IntersectOutput(folder);
    ghost var before := intersectShp in scratch.live;
    reports, failure := map[], None;
    var i := 0;
    while i < |mdbs| && failure.None?
      invariant 0 <= i <= |mdbs|
      invariant Progress(reports, failure) == Sweep(folder, mdbs[..i], db, inter)
      invariant scratch.live == (old(scratch.live) - {intersectShp})
        + (if OutputLive(folder, mdbs[..i], db, inter, before) then {intersectShp} else {})
    {
      assert mdbs[..i + 1][..i] == mdbs[..i] && mdbs[..i + 1][i] == mdbs[i];
      reports, failure := ScanMdb(folder, mdbs[i], db, inter, reports, scratch);
      i := i + 1;
    }
    if failure.Some? {
      FailureSticks(folder, mdbs, i, db, inter);
      OutputLiveSticks(folder, mdbs, i, db, inter, before);
    } else {
      assert mdbs[..i] == mdbs;
    }
  }

  lemma {:induction false} OutputLiveSticks(folder: string, mdbs: seq<string>, i: nat, db: Db, inter: map<string, FeatureClass>, before: bool)
    requires i <= |mdbs| && Sweep(folder, mdbs[..i], db, inter).failure.Some?
    ensures OutputLive(folder, mdbs, db, inter, before) == OutputLive(folder, mdbs[..i], db, inter, before)
    decreases |mdbs| - i
  {
    if i < |mdbs| {
      assert mdbs[..i + 1][..i] == mdbs[..i];
      OutputLiveSticks(folder, mdbs, i + 1, db, inter, before);
    } else {
      assert mdbs[..i] == mdbs;
    }
  }

  class SheetNumberValidator {
    var folderPath: string
    var gridsheet: string
    /** The Mismatch_<name>.csv files under SheetNumberReports, by path. */
    var reports: map<string, seq<ReportRow>>

    constructor ()
      ensures folderPath == "" && gridsheet == "" && reports == map[]
    {
      folderPath := "";
      gridsheet := "";
      reports := map[];
    }

    method SetFolderPath(folderPath: string)
      modifies this
      ensures this.folderPath == folderPath && gridsheet == old(gridsheet) && reports == old(reports)
    {
      this.folderPath := folderPath;
    }

    method SetGridsheet(gridsheet: string)
      modifies this
      ensures this.gridsheet == gridsheet && folderPath == old(folderPath) && reports == old(reports)
    {
      this.gridsheet := gridsheet;
    }

    method RunValidation(templates: set<string>, tree: Option<Dir>, db: Db, inter: map<string, FeatureClass>, scratch: Scratch)
      returns (outcome: Outcome)
      modifies this, scratch
      ensures var r := Run(old(folderPath), old(gridsheet), templates, tree, db, inter);
        outcome == r.outcome && reports == old(reports) + r.reports
      ensures folderPath == old(folderPath) && gridsheet == old(gridsheet)
      ensures outcome.ValueError? ==> scratch.live == old(scratch.live)
    {
      if folderPath == "" {
        return ValueError(FolderNotSet);
      }
      if gridsheet == "" {
        return ValueError(GridsheetNotSet);
      }
      var gridsheetPath := Join(TemplatesDir, gridsheet);
      if gridsheetPath !in templates {
        return ValueError(GridsheetNotFound);
      }
      var mdbFiles := FindMdbFiles(folderPath, tree, DefaultExclusions);
      var written, failure := ScanMdbs(folderPath, mdbFiles, db, inter, scratch);
      reports := reports + written;
      outcome := if failure.Some? then Raised(failure.value) else Ok;
    }
  }
}
