/** `SmallAreasValidator` (mdb_validator/small_areas.py): Parcel and
    Construction polygons whose Shape_Area is below the threshold of their
    class. */
module SmallAreas {
  import opened Values
  import opened Engine
  import opened Utils

  const Header: ReportRow := [Str("Source File"), Str("Feature Class"), Str("Parcel Number"), Str("ParFID"), Str("Area (sq.m)")]

  const ClassNames: seq<string> := ["Parcel", "Construction"]

  /** 5 square metres for a Parcel, 0.5 for a Construction. */
  function MinArea(fcName: string): real
  {
    if fcName == "Parcel" then 5.0 else 0.5
  }

  /** The field read with Shape_Area: PARCELNO or ParFID. */
  function IdField(fcName: string): string
  {
    if fcName == "Parcel" then "PARCELNO" else "ParFID"
  }

  /** Python 2's `v < t` for a number `t`: None is below every number, and
      text is above every number. */
  predicate Below(v: Value, t: real)
  {
    match v
    case Null => true
    case Int(i) => (i as real) < t
    case Real(r) => r < t
    case Str(_) => false
  }

  /** The comparison is strict: 4.999 is small for a Parcel but 5 is not;
      0.4 is small for a Construction but 0.5 is not; a null area is always
      small and a text area never. */
  lemma ThresholdBoundaries()
    ensures Below(Real(4.999), MinArea("Parcel")) && !Below(Real(5.0), MinArea("Parcel"))
    ensures !Below(Int(5), MinArea("Parcel")) && Below(Int(4), MinArea("Parcel"))
    ensures Below(Real(0.4), MinArea("Construction")) && !Below(Real(0.5), MinArea("Construction"))
    ensures forall name :: Below(Null, MinArea(name)) && !Below(Str("1"), MinArea(name))
  {
  }

  /** Parcel rows carry PARCELNO and an empty ParFID; Construction rows the
      other way round. */
  function SmallRow(path: string, fcName: string, rec: Record): ReportRow
  {
    if fcName == "Parcel" then [Str(path), Str(fcName), Get(rec, "PARCELNO"), Str(""), Get(rec, "Shape_Area")]
    else [Str(path), Str(fcName), Str(""), Get(rec, "ParFID"), Get(rec, "Shape_Area")]
  }

  function SmallRows(path: string, fcName: string, recs: seq<Record>): seq<ReportRow>
  {
    if |recs| == 0 then []
    else
      var rec := recs[|recs| - 1];
      SmallRows(path, fcName, recs[..|recs| - 1])
        + (if Below(Get(rec, "Shape_Area"), MinArea(fcName)) then [SmallRow(path, fcName, rec)] else [])
  }

  lemma {:induction false} SmallRowsMembers(path: string, fcName: string, recs: seq<Record>)
    ensures forall r :: r in SmallRows(path, fcName, recs) <==>
      exists rec :: rec in recs && Below(Get(rec, "Shape_Area"), MinArea(fcName)) && r == SmallRow(path, fcName, rec)
  {
    if |recs| > 0 {
      SmallRowsMembers(path, fcName, recs[..|recs| - 1]);
      assert recs == recs[..|recs| - 1] + [recs[|recs| - 1]];
    }
  }

  /** The cursor loop; `small_count` only feeds a log message. */
  method ReadCursor(path: string, fcName: string, recs: seq<Record>) returns (rows: seq<ReportRow>)
    ensures rows == SmallRows(path, fcName, recs)
  {
    var minArea := MinArea(fcName);
    rows := [];
    var k := 0;
    while k < |recs|
      invariant 0 <= k <= |recs|
      invariant rows == SmallRows(path, fcName, recs[..k])
    {
      if Below(Get(recs[k], "Shape_Area"), minArea) {
        rows := rows + [SmallRow(path, fcName, recs[k])];
      }
      assert recs[..k + 1][..k] == recs[..k];
      k := k + 1;
    }
    assert recs[..k] == recs;
  }

  // ------------------------------------------------------------- the run

  /** One class: a class that is not a polygon class, or has no
      Shape_Area field, is skipped; opening the cursor raises when the
      identifier field is missing. */
  function ClassPass(loc: Located): Pass
  {
    if loc.fc.shape != Polygon || "Shape_Area" !in FieldNames(loc.fc) then Pass([], None)
    else if !HasFields(loc.fc, [IdField(loc.name), "Shape_Area"]) then Pass([], Some(MissingField(loc.path)))
    else Pass(SmallRows(loc.path, loc.name, loc.fc.records), None)
  }

  function ClassPasses(locs: seq<Located>): (ps: seq<Pass>)
    ensures |ps| == |locs| && forall i :: 0 <= i < |locs| ==> ps[i] == ClassPass(locs[i])
  {
    seq(|locs|, i requires 0 <= i < |locs| => ClassPass(locs[i]))
  }

  function MdbPass(mdb: string, db: Db): Pass
  {
    match FeatureClassesOf(mdb, ClassNames, db)
    case None => Pass([], Some(CannotOpen(mdb)))
    case Some(locs) => Chain(ClassPasses(locs))
  }

  function MdbPasses(mdbs: seq<string>, db: Db): (ps: seq<Pass>)
    ensures |ps| == |mdbs| && forall i :: 0 <= i < |mdbs| ==> ps[i] == MdbPass(mdbs[i], db)
  {
    seq(|mdbs|, i requires 0 <= i < |mdbs| => MdbPass(mdbs[i], db))
  }

  function Run(folder: string, tree: Option<Dir>, db: Db): RunResult
  {
    if folder == "" then RunResult(ValueError(FolderNotSet), None)
    else
      var mdbs := MdbFiles(folder, tree, DefaultExclusions);
      if |mdbs| == 0 then RunResult(ValueError(NoMdbFiles), None)
      else
        var p := Chain(MdbPasses(mdbs, db));
        RunResult(OutcomeOf(p), Some([Header] + p.rows))
  }

  /** A report row: a Parcel or Construction class, an area below that
      class's threshold, and the other class's identifier column empty. */
  predicate SmallAreaRow(r: ReportRow)
  {
    |r| == 5 && (r[1] == Str("Parcel") || r[1] == Str("Construction"))
    && Below(r[4], MinArea(r[1].s))
    && (r[1] == Str("Parcel") ==> r[3] == Str(""))
    && (r[1] == Str("Construction") ==> r[2] == Str(""))
  }

  lemma ClassRowsSmall(loc: Located, r: ReportRow)
    requires loc.name in ClassNames && r in ClassPass(loc).rows
    ensures SmallAreaRow(r) && r[0] == Str(loc.path)
  {
    SmallRowsMembers(loc.path, loc.name, loc.fc.records);
  }

  /** Every row written for an MDB comes from a Parcel or Construction
      polygon class of it and holds an area below that class's threshold. */
  lemma MdbRowsSmall(mdb: string, db: Db, r: ReportRow)
    requires r in MdbPass(mdb, db).rows
    ensures SmallAreaRow(r)
  {
    var locs := FeatureClassesOf(mdb, ClassNames, db).value;
    var ps := ClassPasses(locs);
    ChainRows(ps, r);
    var j :| 0 <= j < |ps| && r in ps[j].rows;
    Resolved(mdb, ClassNames, db, locs[j]);
    ClassRowsSmall(locs[j], r);
  }

  method ScanClass(loc: Located) returns (rows: seq<ReportRow>, failure: Option<string>)
    ensures Pass(rows, failure) == ClassPass(loc)
  {
    if loc.fc.shape != Polygon {
      return [], None;
    }
    var fields := FieldNames(loc.fc);
    if "Shape_Area" !in fields {
      return [], None;
    }
    var fieldList := [IdField(loc.name), "Shape_Area"];
    if !HasFields(loc.fc, fieldList) {
      return [], Some(MissingField(loc.path));
    }
    rows := ReadCursor(loc.path, loc.name, loc.fc.records);
    failure := None;
  }

  method ScanMdb(mdb: string, db: Db) returns (rows: seq<ReportRow>, failure: Option<string>)
    ensures Pass(rows, failure) == MdbPass(mdb, db)
  {
    var features := GetFeatureClasses(mdb, ClassNames, db);
    if features.None? {
      return [], Some(CannotOpen(mdb));
    }
    ghost var ps := ClassPasses(features.value);
    rows, failure := [], None;
    var i := 0;
    while i < |features.value| && failure.None?
      invariant 0 <= i <= |features.value|
      invariant Chain(ps) == Then(Pass(rows, failure), Chain(ps[i..]))
    {
      ChainStep(Pass(rows, failure), ps, i);
      var more, raised := ScanClass(features.value[i]);
      rows, failure := rows + more, raised;
      i := i + 1;
    }
  }

  method ScanMdbs(mdbs: seq<string>, db: Db) returns (rows: seq<ReportRow>, failure: Option<string>)
    ensures Pass(rows, failure) == Chain(MdbPasses(mdbs, db))
  {
    ghost var ps := MdbPasses(mdbs, db);
    rows, failure := [], None;
    var i := 0;
    while i < |mdbs| && failure.None?
      invariant 0 <= i <= |mdbs|
      invariant Chain(ps) == Then(Pass(rows, failure), Chain(ps[i..]))
    {
      ChainStep(Pass(rows, failure), ps, i);
      var more, raised := ScanMdb(mdbs[i], db);
      rows, failure := rows + more, raised;
      i := i + 1;
    }
  }

  class SmallAreasValidator {
    var folderPath: string
    /** small_areas_report.csv in the folder. */
    var report: Option<seq<ReportRow>>

    constructor ()
      ensures folderPath == "" && report == None
    {
      folderPath := "";
      report := None;
    }

    method SetFolderPath(folderPath: string)
      modifies this
      ensures this.folderPath == folderPath && report == old(report)
    {
      this.folderPath := folderPath;
    }

    method RunValidation(tree: Option<Dir>, db: Db) returns (outcome: Outcome)
      modifies this
      ensures var r := Run(old(folderPath), tree, db);
        outcome == r.outcome && report == (if r.report.Some? then r.report else old(report))
      ensures folderPath == old(folderPath)
    {
      if folderPath == "" {
        return ValueError(FolderNotSet);
      }
      var mdbFiles := FindMdbFiles(folderPath, tree, DefaultExclusions);
      if mdbFiles == [] {
        return ValueError(NoMdbFiles);
      }
      var rows, failure := ScanMdbs(mdbFiles, db);
      report := Some([Header] + rows);
      outcome := OutcomeOf(Pass(rows, failure));
    }
  }
}
