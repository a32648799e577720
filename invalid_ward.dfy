/** `InvalidWardValidator` (mdb_validator/invalid_ward.py): parcels whose
    WARDNO, as text, is not one of "1" to "9". */
module InvalidWard {
  import opened Values
  import opened Engine
  import opened Utils

  const Header: ReportRow := [Str("Source File"), Str("Parcel Number"), Str("WARDNO")]

  const CursorFields: seq<string> := ["PARCELNO", "WARDNO"]

  /** `set(str(i) for i in range(1, 10))`. */
  const ValidWards: set<string> := set i: nat | 1 <= i < 10 :: NatToStr(i)

  /** The test of line 56, with None read as "". */
  predicate InvalidWardNo(v: Value)
  {
    TextOrEmpty(v) !in ValidWards
  }

  /** A ward number passes exactly when it is the integer 1 to 9 or that
      digit as text: None, 0, 10, " 5", "05" and every double (5.0 prints
      as "5.0") are reported. */
  lemma ValidWardIff(v: Value)
    ensures !InvalidWardNo(v) <==> exists n: nat :: 1 <= n <= 9 && (v == Int(n) || v == Str(NatToStr(n)))
  {
    if !InvalidWardNo(v) {
      var n: nat :| 1 <= n < 10 && NatToStr(n) == TextOrEmpty(v);
      assert !v.Null?;
      StrIsDecimal(v, n);
    } else {
      forall n: nat | 1 <= n <= 9 ensures v != Int(n) && v != Str(NatToStr(n)) {
        assert NatToStr(n) in ValidWards;
      }
    }
  }

  lemma ReportedWardExamples()
    ensures InvalidWardNo(Null) && InvalidWardNo(Str("0")) && InvalidWardNo(Str("10"))
    ensures InvalidWardNo(Int(10)) && InvalidWardNo(Real(5.0))
    ensures !InvalidWardNo(Str("9")) && !InvalidWardNo(Int(1))
  {
    ValidWardIff(Null);
    ValidWardIff(Str("0"));
    ValidWardIff(Str("10"));
    ValidWardIff(Int(10));
    ValidWardIff(Real(5.0));
    assert NatToStr(9) == "9";
    assert NatToStr(1) == "1";
    ValidWardIff(Str("9"));
    ValidWardIff(Int(1));
  }

  /** The row keeps the raw WARDNO value, not its text. */
  function WardRow(mdb: string, rec: Record): ReportRow
  {
    [Str(mdb), Get(rec, "PARCELNO"), Get(rec, "WARDNO")]
  }

  function WardRows(mdb: string, recs: seq<Record>): seq<ReportRow>
  {
    if |recs| == 0 then []
    else
      var rec := recs[|recs| - 1];
      WardRows(mdb, recs[..|recs| - 1]) + (if InvalidWardNo(Get(rec, "WARDNO")) then [WardRow(mdb, rec)] else [])
  }

  lemma {:induction false} WardRowsMembers(mdb: string, recs: seq<Record>)
    ensures forall r :: r in WardRows(mdb, recs) <==>
      exists rec :: rec in recs && InvalidWardNo(Get(rec, "WARDNO")) && r == WardRow(mdb, rec)
  {
    if |recs| > 0 {
      WardRowsMembers(mdb, recs[..|recs| - 1]);
      assert recs == recs[..|recs| - 1] + [recs[|recs| - 1]];
    }
  }

  method ReadCursor(mdb: string, recs: seq<Record>) returns (rows: seq<ReportRow>)
    ensures rows == WardRows(mdb, recs)
  {
    rows := [];
    var k := 0;
    while k < |recs|
      invariant 0 <= k <= |recs|
      invariant rows == WardRows(mdb, recs[..k])
    {
      var wardNo := TextOrEmpty(Get(recs[k], "WARDNO"));
      if wardNo !in ValidWards {
        rows := rows + [WardRow(mdb, recs[k])];
      }
      assert recs[..k + 1][..k] == recs[..k];
      k := k + 1;
    }
    assert recs[..k] == recs;
  }

  // ------------------------------------------------------------- the run

  /** One Parcel class; opening the cursor raises when a field is missing. */
  function ClassPass(mdb: string, loc: Located): Pass
  {
    if !HasFields(loc.fc, CursorFields) then Pass([], Some(MissingField(loc.path)))
    else Pass(WardRows(mdb, loc.fc.records), None)
  }

  function ClassPasses(mdb: string, locs: seq<Located>): (ps: seq<Pass>)
    ensures |ps| == |locs| && forall i :: 0 <= i < |locs| ==> ps[i] == ClassPass(mdb, locs[i])
  {
    seq(|locs|, i requires 0 <= i < |locs| => ClassPass(mdb, locs[i]))
  }

  function MdbPass(mdb: string, db: Db): Pass
  {
    match FeatureClassesOf(mdb, ["Parcel"], db)
    case None => Pass([], Some(CannotOpen(mdb)))
    case Some(locs) => Chain(ClassPasses(mdb, locs))
  }

  function MdbPasses(mdbs: seq<string>, db: Db): (ps: seq<Pass>)
    ensures |ps| == |mdbs| && forall i :: 0 <= i < |mdbs| ==> ps[i] == MdbPass(mdbs[i], db)
  {
    seq(|mdbs|, i requires 0 <= i < |mdbs| => MdbPass(mdbs[i], db))
  }

  function Run(folder: string, tree: Option<Dir>, db: Db): RunResult
  {
    if folder == "" then RunResult(ValueError(FolderNotSet), None)
    else
      var mdbs := MdbFiles(folder, tree, DefaultExclusions);
      if |mdbs| == 0 then RunResult(ValueError(NoMdbFiles), None)
      else
        var p := Chain(MdbPasses(mdbs, db));
        RunResult(OutcomeOf(p), Some([Header] + p.rows))
  }

  /** Every row written for an MDB names that MDB and carries a ward number
      outside "1" to "9". */
  lemma MdbRowsInvalid(mdb: string, db: Db, r: ReportRow)
    requires r in MdbPass(mdb, db).rows
    ensures |r| == 3 && r[0] == Str(mdb) && InvalidWardNo(r[2])
  {
    var locs := FeatureClassesOf(mdb, ["Parcel"], db).value;
    var ps := ClassPasses(mdb, locs);
    ChainRows(ps, r);
    var j :| 0 <= j < |ps| && r in ps[j].rows;
    WardRowsMembers(mdb, locs[j].fc.records);
  }

  method ScanClass(mdb: string, loc: Located) returns (rows: seq<ReportRow>, failure: Option<string>)
    ensures Pass(rows, failure) == ClassPass(mdb, loc)
  {
    if !HasFields(loc.fc, CursorFields) {
      return [], Some(MissingField(loc.path));
    }
    rows := ReadCursor(mdb, loc.fc.records);
    failure := None;
  }

  method ScanMdb(mdb: string, db: Db) returns (rows: seq<ReportRow>, failure: Option<string>)
    ensures Pass(rows, failure) == MdbPass(mdb, db)
  {
    var parcels := GetFeatureClasses(mdb, ["Parcel"], db);
    if parcels.None? {
      return [], Some(CannotOpen(mdb));
    }
    ghost var ps := ClassPasses(mdb, parcels.value);
    rows, failure := [], None;
    var i := 0;
    while i < |parcels.value| && failure.None?
      invariant 0 <= i <= |parcels.value|
      invariant Chain(ps) == Then(Pass(rows, failure), Chain(ps[i..]))
    {
      ChainStep(Pass(rows, failure), ps, i);
      var more, raised := ScanClass(mdb, parcels.value[i]);
      rows, failure := rows + more, raised;
      i := i + 1;
    }
  }

  method ScanMdbs(mdbs: seq<string>, db: Db) returns (rows: seq<ReportRow>, failure: Option<string>)
    ensures Pass(rows, failure) == Chain(MdbPasses(mdbs, db))
  {
    ghost var ps := MdbPasses(mdbs, db);
    rows, failure := [], None;
    var i := 0;
    while i < |mdbs| && failure.None?
      invariant 0 <= i <= |mdbs|
      invariant Chain(ps) == Then(Pass(rows, failure), Chain(ps[i..]))
    {
      ChainStep(Pass(rows, failure), ps, i);
      var more, raised := ScanMdb(mdbs[i], db);
      rows, failure := rows + more, raised;
      i := i + 1;
    }
  }

  class InvalidWardValidator {
    var folderPath: string
    /** invalid_ward_numbers_report.csv in the folder. */
    var report: Option<seq<ReportRow>>

    constructor ()
      ensures folderPath == "" && report == None
    {
      folderPath := "";
      report := None;
    }

    method SetFolderPath(folderPath: string)
      modifies this
      ensures this.folderPath == folderPath && report == old(report)
    {
      this.folderPath := folderPath;
    }

    method RunValidation(tree: Option<Dir>, db: Db) returns (outcome: Outcome)
      modifies this
      ensures var r := Run(old(folderPath), tree, db);
        outcome == r.outcome && report == (if r.report.Some? then r.report else old(report))
      ensures folderPath == old(folderPath)
    {
      if folderPath == "" {
        return ValueError(FolderNotSet);
      }
      var mdbFiles := FindMdbFiles(folderPath, tree, DefaultExclusions);
      if mdbFiles == [] {
        return ValueError(NoMdbFiles);
      }
      var rows, failure := ScanMdbs(mdbFiles, db);
      report := Some([Header] + rows);
      outcome := OutcomeOf(Pass(rows, failure));
    }
  }
}
