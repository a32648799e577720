/** `InvalidSheetValidator` (mdb_validator/invalid_sheet.py): parcels
    whose GRIDS1 sheet number does not start with the prefix of the map
    scale selected by the user. */
module InvalidSheet {
  import opened Values
  import opened Engine
  import opened Utils

  const Header: ReportRow := [Str("MDB File Path"), Str("PARCELNO"), Str("GRIDS1"), Str("Status")]

  const StatusText: string := "Invalid GRIDS1 (does not match selected scale)"

  const CursorFields: seq<string> := ["PARCELNO", "GRIDS1"]

  /** `scale_values`: the sheet-number prefix of each supported scale. */
  const ScaleValues: map<string, string> := map[
    "500" := "5554", "600" := "5553", "1200" := "5555", "1250" := "5556",
    "2400" := "5557", "2500" := "5558", "4800" := "5559"]

  /** Every prefix has four characters and no two scales share one, so a
      sheet number matches at most one scale. */
  lemma AtMostOneScale(grids1: string, s1: string, s2: string)
    requires s1 in ScaleValues && s2 in ScaleValues
    requires StartsWith(grids1, ScaleValues[s1]) && StartsWith(grids1, ScaleValues[s2])
    ensures s1 == s2
  {
    assert |ScaleValues[s1]| == 4 && |ScaleValues[s2]| == 4;
    assert ScaleValues[s1] == grids1[..4] == ScaleValues[s2];
  }

  /** Line 69-70: the text of GRIDS1, None read as "", lacks the prefix. */
  predicate Flagged(v: Value, prefix: string)
  {
    !StartsWith(TextOrEmpty(v), prefix)
  }

  /** A null GRIDS1 is reported at every scale. */
  lemma NullSheetFlagged(scale: string)
    requires scale in ScaleValues
    ensures Flagged(Null, ScaleValues[scale])
  {
    assert |ScaleValues[scale]| == 4;
  }

  /** At 1:1200, "55551234" passes and "1234" is reported; an integer
      sheet number is compared through its text. */
  lemma FlaggedExamples()
    ensures !Flagged(Str("55551234"), ScaleValues["1200"])
    ensures Flagged(Str("1234"), ScaleValues["1200"])
    ensures !Flagged(Int(55559), ScaleValues["1200"])
  {
    var prefix := ScaleValues["1200"];
    assert prefix == "5555";
    assert "55551234"[..4] == prefix;
    assert "1234"[..4] != prefix by {
      assert "1234"[0] != prefix[0];
    }
    assert NatToStr(5555) == "5555";
    assert NatToStr(55559) == NatToStr(5555) + "9";
  }

  function SheetRow(mdb: string, rec: Record): ReportRow
  {
    [Str(mdb), Get(rec, "PARCELNO"), Str(TextOrEmpty(Get(rec, "GRIDS1"))), Str(StatusText)]
  }

  function SheetRows(mdb: string, recs: seq<Record>, prefix: string): seq<ReportRow>
  {
    if |recs| == 0 then []
    else
      var rec := recs[|recs| - 1];
      SheetRows(mdb, recs[..|recs| - 1], prefix) + (if Flagged(Get(rec, "GRIDS1"), prefix) then [SheetRow(mdb, rec)] else [])
  }

  lemma {:induction false} SheetRowsMembers(mdb: string, recs: seq<Record>, prefix: string)
    ensures forall r :: r in SheetRows(mdb, recs, prefix) <==>
      exists rec :: rec in recs && Flagged(Get(rec, "GRIDS1"), prefix) && r == SheetRow(mdb, rec)
  {
    if |recs| > 0 {
      SheetRowsMembers(mdb, recs[..|recs| - 1], prefix);
      assert recs == recs[..|recs| - 1] + [recs[|recs| - 1]];
    }
  }

  method ReadCursor(mdb: string, recs: seq<Record>, prefix: string) returns (rows: seq<ReportRow>)
    ensures rows == SheetRows(mdb, recs, prefix)
  {
    rows := [];
    var k := 0;
    while k < |recs|
      invariant 0 <= k <= |recs|
      invariant rows == SheetRows(mdb, recs[..k], prefix)
    {
      var grids1 := TextOrEmpty(Get(recs[k], "GRIDS1"));
      if !StartsWith(grids1, prefix) {
        rows := rows + [SheetRow(mdb, recs[k])];
      }
      assert recs[..k + 1][..k] == recs[..k];
      k := k + 1;
    }
    assert recs[..k] == recs;
  }

  // ------------------------------------------------------------- the run

  /** One Parcel class; opening the cursor raises when a field is missing. */
  function ClassPass(mdb: string, loc: Located, prefix: string): Pass
  {
    if !HasFields(loc.fc, CursorFields) then Pass([], Some(MissingField(loc.path)))
    else Pass(SheetRows(mdb, loc.fc.records, prefix), None)
  }

  function ClassPasses(mdb: string, locs: seq<Located>, prefix: string): (ps: seq<Pass>)
    ensures |ps| == |locs| && forall i :: 0 <= i < |locs| ==> ps[i] == ClassPass(mdb, locs[i], prefix)
  {
    seq(|locs|, i requires 0 <= i < |locs| => ClassPass(mdb, locs[i], prefix))
  }

  function MdbPass(mdb: string, db: Db, prefix: string): Pass
  {
    match FeatureClassesOf(mdb, ["Parcel"], db)
    case None => Pass([], Some(CannotOpen(mdb)))
    case Some(locs) => Chain(ClassPasses(mdb, locs, prefix))
  }

  function MdbPasses(mdbs: seq<string>, db: Db, prefix: string): (ps: seq<Pass>)
    ensures |ps| == |mdbs| && forall i :: 0 <= i < |mdbs| ==> ps[i] == MdbPass(mdbs[i], db, prefix)
  {
    seq(|mdbs|, i requires 0 <= i < |mdbs| => MdbPass(mdbs[i], db, prefix))
  }

  /** `run_validation`: the folder path, then the scale, is checked before
      any file is searched; the scale must be a key of the table. */
  function Run(folder: string, scale: string, tree: Option<Dir>, db: Db): RunResult
  {
    if folder == "" then RunResult(ValueError(FolderNotSet), None)
    else if scale == "" then RunResult(ValueError(ScaleNotSet), None)
    else if scale !in ScaleValues then RunResult(ValueError(InvalidScale), None)
    else
      var mdbs := MdbFiles(folder, tree, DefaultExclusions);
      if |mdbs| == 0 then RunResult(ValueError(NoMdbFiles), None)
      else
        var p := Chain(MdbPasses(mdbs, db, ScaleValues[scale]));
        RunResult(OutcomeOf(p), Some([Header] + p.rows))
  }

  /** Every row written for an MDB names that MDB and carries a GRIDS1
      text lacking the prefix. */
  lemma MdbRowsFlagged(mdb: string, db: Db, prefix: string, r: ReportRow)
    requires r in MdbPass(mdb, db, prefix).rows
    ensures |r| == 4 && r[0] == Str(mdb) && r[2].Str? && !StartsWith(r[2].s, prefix) && r[3] == Str(StatusText)
  {
    var locs := FeatureClassesOf(mdb, ["Parcel"], db).value;
    var ps := ClassPasses(mdb, locs, prefix);
    ChainRows(ps, r);
    var j :| 0 <= j < |ps| && r in ps[j].rows;
    SheetRowsMembers(mdb, locs[j].fc.records, prefix);
  }

  method ScanClass(mdb: string, loc: Located, prefix: string) returns (rows: seq<ReportRow>, failure: Option<string>)
    ensures Pass(rows, failure) == ClassPass(mdb, loc, prefix)
  {
    if !HasFields(loc.fc, CursorFields) {
      return [], Some(MissingField(loc.path));
    }
    rows := ReadCursor(mdb, loc.fc.records, prefix);
    failure := None;
  }

  method ScanMdb(mdb: string, db: Db, prefix: string) returns (rows: seq<ReportRow>, failure: Option<string>)
    ensures Pass(rows, failure) == MdbPass(mdb, db, prefix)
  {
    var parcels := GetFeatureClasses(mdb, ["Parcel"], db);
    if parcels.None? {
      return [], Some(CannotOpen(mdb));
    }
    ghost var ps := ClassPasses(mdb, parcels.value, prefix);
    rows, failure := [], None;
    var i := 0;
    while i < |parcels.value| && failure.None?
      invariant 0 <= i <= |parcels.value|
      invariant Chain(ps) == Then(Pass(rows, failure), Chain(ps[i..]))
    {
      ChainStep(Pass(rows, failure), ps, i);
      var more, raised := ScanClass(mdb, parcels.value[i], prefix);
      rows, failure := rows + more, raised;
      i := i + 1;
    }
  }

  method ScanMdbs(mdbs: seq<string>, db: Db, prefix: string) returns (rows: seq<ReportRow>, failure: Option<string>)
    ensures Pass(rows, failure) == Chain(MdbPasses(mdbs, db, prefix))
  {
    ghost var ps := MdbPasses(mdbs, db, prefix);
    rows, failure := [], None;
    var i := 0;
    while i < |mdbs| && failure.None?
      invariant 0 <= i <= |mdbs|
      invariant Chain(ps) == Then(Pass(rows, failure), Chain(ps[i..]))
    {
      ChainStep(Pass(rows, failure), ps, i);
      var more, raised := ScanMdb(mdbs[i], db, prefix);
      rows, failure := rows + more, raised;
      i := i + 1;
    }
  }

  class InvalidSheetValidator {
    var folderPath: string
    var scale: string
    /** 01_invalid_sheet_numbers_report.csv in the folder. */
    var report: Option<seq<ReportRow>>

    constructor ()
      ensures folderPath == "" && scale == "" && report == None
    {
      folderPath := "";
      scale := "";
      report := None;
    }

    method SetFolderPath(folderPath: string)
      modifies this
      ensures this.folderPath == folderPath && scale == old(scale) && report == old(report)
    {
      this.folderPath := folderPath;
    }

    method SetScale(scale: string)
      modifies this
      ensures this.scale == scale && folderPath == old(folderPath) && report == old(report)
    {
      this.scale := scale;
    }

    method RunValidation(tree: Option<Dir>, db: Db) returns (outcome: Outcome)
      modifies this
      ensures var r := Run(old(folderPath), old(scale), tree, db);
        outcome == r.outcome && report == (if r.report.Some? then r.report else old(report))
      ensures folderPath == old(folderPath) && scale == old(scale)
    {
      if folderPath == "" {
        return ValueError(FolderNotSet);
      }
      if scale == "" {
        return ValueError(ScaleNotSet);
      }
      if scale !in ScaleValues {
        return ValueError(InvalidScale);
      }
      var scaleValue := ScaleValues[scale];
      var mdbFiles := FindMdbFiles(folderPath, tree, DefaultExclusions);
      if mdbFiles == [] {
        return ValueError(NoMdbFiles);
      }
      var rows, failure := ScanMdbs(mdbFiles, db, scaleValue);
      report := Some([Header] + rows);
      outcome := OutcomeOf(Pass(rows, failure));
    }
  }
}
