/** `InvalidParcelNumValidator` (mdb_validator/invalid_parcelnum.py):
    parcels whose PARCELNO, as text, is not one of "0" to "9998". */
module InvalidParcelNum {
  import opened Values
  import opened Engine
  import opened Utils

  const Header: ReportRow := [Str("Source File"), Str("Parcel Number")]

  const CursorFields: seq<string> := ["PARCELNO"]

  /** `set(str(i) for i in range(0, 9999))`, built once per run. */
  const ValidParcelNos: set<string> := set i: nat | i < 9999 :: NatToStr(i)

  /** The test of line 57, with None read as "". */
  predicate InvalidParcelNo(v: Value)
  {
    TextOrEmpty(v) !in ValidParcelNos
  }

  /** A parcel number passes exactly when it is the integer 0 to 9998 or its
      canonical text: None, 9999, negatives, zero-padded text and doubles
      are reported. */
  lemma ValidParcelNoIff(v: Value)
    ensures !InvalidParcelNo(v) <==> exists n: nat :: n <= 9998 && (v == Int(n) || v == Str(NatToStr(n)))
  {
    if !InvalidParcelNo(v) {
      var n: nat :| n < 9999 && NatToStr(n) == TextOrEmpty(v);
      assert !v.Null?;
      StrIsDecimal(v, n);
    } else {
      forall n: nat | n <= 9998 ensures v != Int(n) && v != Str(NatToStr(n)) {
        assert NatToStr(n) in ValidParcelNos;
      }
    }
  }

  /** None, 9999 (as text or integer), negatives and zero-padded text are
      reported. */
  lemma ReportedParcelNoExamples()
    ensures InvalidParcelNo(Null) && InvalidParcelNo(Str("9999")) && InvalidParcelNo(Int(9999))
    ensures InvalidParcelNo(Str("-1")) && InvalidParcelNo(Int(-1)) && InvalidParcelNo(Str("01"))
  {
    ValidParcelNoIff(Null);
    ValidParcelNoIff(Int(-1));
    ValidParcelNoIff(Int(9999));
    assert NatToStr(9999) == "9999";
    forall n: nat | n < 9999 ensures NatToStr(n) != "-1" && NatToStr(n) != "01" {
      assert !IsDigit('-');
    }
  }

  /** 0 and "9998" pass. */
  lemma AcceptedParcelNoExamples()
    ensures !InvalidParcelNo(Int(0)) && !InvalidParcelNo(Str("9998"))
  {
    assert NatToStr(0) in ValidParcelNos;
    assert NatToStr(9998) == "9998";
    assert NatToStr(9998) in ValidParcelNos;
  }

  /** The row keeps the raw PARCELNO value. */
  function ParcelRow(mdb: string, rec: Record): ReportRow
  {
    [Str(mdb), Get(rec, "PARCELNO")]
  }

  function ParcelRows(mdb: string, recs: seq<Record>): seq<ReportRow>
  {
    if |recs| == 0 then []
    else
      var rec := recs[|recs| - 1];
      ParcelRows(mdb, recs[..|recs| - 1]) + (if InvalidParcelNo(Get(rec, "PARCELNO")) then [ParcelRow(mdb, rec)] else [])
  }

  lemma {:induction false} ParcelRowsMembers(mdb: string, recs: seq<Record>)
    ensures forall r :: r in ParcelRows(mdb, recs) <==>
      exists rec :: rec in recs && InvalidParcelNo(Get(rec, "PARCELNO")) && r == ParcelRow(mdb, rec)
  {
    if |recs| > 0 {
      ParcelRowsMembers(mdb, recs[..|recs| - 1]);
      assert recs == recs[..|recs| - 1] + [recs[|recs| - 1]];
    }
  }

  method ReadCursor(mdb: string, recs: seq<Record>) returns (rows: seq<ReportRow>)
    ensures rows == ParcelRows(mdb, recs)
  {
    rows := [];
    var k := 0;
    while k < |recs|
      invariant 0 <= k <= |recs|
      invariant rows == ParcelRows(mdb, recs[..k])
    {
      var parcelNo := TextOrEmpty(Get(recs[k], "PARCELNO"));
      if parcelNo !in ValidParcelNos {
        rows := rows + [ParcelRow(mdb, recs[k])];
      }
      assert recs[..k + 1][..k] == recs[..k];
      k := k + 1;
    }
    assert recs[..k] == recs;
  }

  // ------------------------------------------------------------- the run

  /** One Parcel class; opening the cursor raises when a field is missing. */
  function ClassPass(mdb: string, loc: Located): Pass
  {
    if !HasFields(loc.fc, CursorFields) then Pass([], Some(MissingField(loc.path)))
    else Pass(ParcelRows(mdb, loc.fc.records), None)
  }

  function ClassPasses(mdb: string, locs: seq<Located>): (ps: seq<Pass>)
    ensures |ps| == |locs| && forall i :: 0 <= i < |locs| ==> ps[i] == ClassPass(mdb, locs[i])
  {
    seq(|locs|, i requires 0 <= i < |locs| => ClassPass(mdb, locs[i]))
  }

  function MdbPass(mdb: string, db: Db): Pass
  {
    match FeatureClassesOf(mdb, ["Parcel"], db)
    case None => Pass([], Some(CannotOpen(mdb)))
    case Some(locs) => Chain(ClassPasses(mdb, locs))
  }

  function MdbPasses(mdbs: seq<string>, db: Db): (ps: seq<Pass>)
    ensures |ps| == |mdbs| && forall i :: 0 <= i < |mdbs| ==> ps[i] == MdbPass(mdbs[i], db)
  {
    seq(|mdbs|, i requires 0 <= i < |mdbs| => MdbPass(mdbs[i], db))
  }

  function Run(folder: string, tree: Option<Dir>, db: Db): RunResult
  {
    if folder == "" then RunResult(ValueError(FolderNotSet), None)
    else
      var mdbs := MdbFiles(folder, tree, DefaultExclusions);
      if |mdbs| == 0 then RunResult(ValueError(NoMdbFiles), None)
      else
        var p := Chain(MdbPasses(mdbs, db));
        RunResult(OutcomeOf(p), Some([Header] + p.rows))
  }

  /** Every row written for an MDB names that MDB and carries a parcel
      number outside "0" to "9998". */
  lemma MdbRowsInvalid(mdb: string, db: Db, r: ReportRow)
    requires r in MdbPass(mdb, db).rows
    ensures |r| == 2 && r[0] == Str(mdb) && InvalidParcelNo(r[1])
  {
    var locs := FeatureClassesOf(mdb, ["Parcel"], db).value;
    var ps := ClassPasses(mdb, locs);
    ChainRows(ps, r);
    var j :| 0 <= j < |ps| && r in ps[j].rows;
    ParcelRowsMembers(mdb, locs[j].fc.records);
  }

  method ScanClass(mdb: string, loc: Located) returns (rows: seq<ReportRow>, failure: Option<string>)
    ensures Pass(rows, failure) == ClassPass(mdb, loc)
  {
    if !HasFields(loc.fc, CursorFields) {
      return [], Some(MissingField(loc.path));
    }
    rows := ReadCursor(mdb, loc.fc.records);
    failure := None;
  }

  method ScanMdb(mdb: string, db: Db) returns (rows: seq<ReportRow>, failure: Option<string>)
    ensures Pass(rows, failure) == MdbPass(mdb, db)
  {
    var parcels := GetFeatureClasses(mdb, ["Parcel"], db);
    if parcels.None? {
      return [], Some(CannotOpen(mdb));
    }
    ghost var ps := ClassPasses(mdb, parcels.value);
    rows, failure := [], None;
    var i := 0;
    while i < |parcels.value| && failure.None?
      invariant 0 <= i <= |parcels.value|
      invariant Chain(ps) == Then(Pass(rows, failure), Chain(ps[i..]))
    {
      ChainStep(Pass(rows, failure), ps, i);
      var more, raised := ScanClass(mdb, parcels.value[i]);
      rows, failure := rows + more, raised;
      i := i + 1;
    }
  }

  method ScanMdbs(mdbs: seq<string>, db: Db) returns (rows: seq<ReportRow>, failure: Option<string>)
    ensures Pass(rows, failure) == Chain(MdbPasses(mdbs, db))
  {
    ghost var ps := MdbPasses(mdbs, db);
    rows, failure := [], None;
    var i := 0;
    while i < |mdbs| && failure.None?
      invariant 0 <= i <= |mdbs|
      invariant Chain(ps) == Then(Pass(rows, failure), Chain(ps[i..]))
    {
      ChainStep(Pass(rows, failure), ps, i);
      var more, raised := ScanMdb(mdbs[i], db);
      rows, failure := rows + more, raised;
      i := i + 1;
    }
  }

  class InvalidParcelNumValidator {
    var folderPath: string
    /** 07_invalid_parcel_no_report.csv in the folder. */
    var report: Option<seq<ReportRow>>

    constructor ()
      ensures folderPath == "" && report == None
    {
      folderPath := "";
      report := None;
    }

    method SetFolderPath(folderPath: string)
      modifies this
      ensures this.folderPath == folderPath && report == old(report)
    {
      this.folderPath := folderPath;
    }

    method RunValidation(tree: Option<Dir>, db: Db) returns (outcome: Outcome)
      modifies this
      ensures var r := Run(old(folderPath), tree, db);
        outcome == r.outcome && report == (if r.report.Some? then r.report else old(report))
      ensures folderPath == old(folderPath)
    {
      if folderPath == "" {
        return ValueError(FolderNotSet);
      }
      var mdbFiles := FindMdbFiles(folderPath, tree, DefaultExclusions);
      if mdbFiles == [] {
        return ValueError(NoMdbFiles);
      }
      var rows, failure := ScanMdbs(mdbFiles, db);
      report := Some([Header] + rows);
      outcome := OutcomeOf(Pass(rows, failure));
    }
  }
}
