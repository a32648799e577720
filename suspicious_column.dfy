/** `SuspiciousColumnValidator` (mdb_validator/suspicious_column.py): parcels
    whose "suspicious" column says YES or Y, ignoring case and surrounding
    whitespace. A Parcel class without the column gets one "Column missing"
    row; an error on an MDB gets one error row and the run goes on. */
module SuspiciousColumn {
  import opened Values
  import opened Engine
  import opened Utils

  const Header: ReportRow := [Str("Source File"), Str("Parcel Number"), Str("Status"), Str("Value")]

  const CursorFields: seq<string> := ["PARCELNO", "suspicious"]

  function MissingColumnRow(mdb: string): ReportRow
  {
    [Str(mdb), Str("N/A"), Str("Column missing"), Str("suspicious column not found")]
  }

  function ErrorRow(mdb: string, error: string): ReportRow
  {
    [Str(mdb), Str("ERROR"), Str("Processing error"), Str(error)]
  }

  /** `str(v).strip().upper()`, and "" for None. */
  function Normalised(v: Value): string
  {
    Upper(Strip(TextOrEmpty(v)))
  }

  predicate Suspicious(v: Value)
  {
    Normalised(v) == "YES" || Normalised(v) == "Y"
  }

  /** Whitespace around the text and the case of its letters do not matter. */
  lemma PaddingAndCaseIgnored(w1: string, s: string, w2: string)
    requires AllSpace(w1) && AllSpace(w2)
    requires |s| > 0 && !IsSpace(s[0]) && !IsSpace(s[|s| - 1])
    ensures Suspicious(Str(w1 + s + w2)) <==> Upper(s) == "YES" || Upper(s) == "Y"
  {
    StripPadding(w1, s, w2);
  }

  /** Every spelling of "yes", whatever the case of each letter. */
  lemma UpperYes(s: string)
    requires |s| == 3 && s[0] in "yY" && s[1] in "eE" && s[2] in "sS"
    ensures Upper(s) == "YES"
  {
    assert Upper(s)[0] == 'Y' && Upper(s)[1] == 'E' && Upper(s)[2] == 'S';
  }

  /** " yes ", "YES" or "\tYes" are flagged, whatever surrounds them. */
  lemma PaddedYesFlagged(w1: string, s: string, w2: string)
    requires AllSpace(w1) && AllSpace(w2)
    requires |s| == 3 && s[0] in "yY" && s[1] in "eE" && s[2] in "sS"
    ensures Suspicious(Str(w1 + s + w2))
  {
    StripPadding(w1, s, w2);
    UpperYes(s);
  }

  /** "y" or " Y" likewise. */
  lemma PaddedYFlagged(w1: string, s: string, w2: string)
    requires AllSpace(w1) && AllSpace(w2)
    requires |s| == 1 && s[0] in "yY"
    ensures Suspicious(Str(w1 + s + w2))
  {
    StripPadding(w1, s, w2);
    assert Upper(s)[0] == 'Y';
  }

  /** "No" is not flagged. */
  lemma NoNotFlagged()
    ensures !Suspicious(Str("No"))
  {
    var s := "No";
    assert s[0] == 'N' && s[1] == 'o';
    PaddingAndCaseIgnored("", s, "");
    assert "" + s + "" == s;
  }

  /** The whole value must be the flag: "yes please" is not flagged. */
  lemma LongerTextNotFlagged()
    ensures !Suspicious(Str("yes please"))
  {
    var s := "yes please";
    assert s[0] == 'y' && s[9] == 'e';
    PaddingAndCaseIgnored("", s, "");
    assert "" + s + "" == s;
  }

  /** A None value reads as "" and is not flagged. */
  lemma NullNotFlagged()
    ensures !Suspicious(Null)
  {
    assert Normalised(Null) == "";
  }

  /** Text made of digits, '-' and '.' never normalises to a flag, since
      both flags start with 'Y'. */
  lemma NumericNotFlagged(text: string)
    requires NumericText(text)
    ensures Upper(Strip(text)) != "YES" && Upper(Strip(text)) != "Y"
  {
    var t := Strip(text);
    if |t| > 0 {
      StripKeeps(text, t[0]);
      assert Upper(t)[0] == t[0];
    }
  }

  /** Only a text value can be flagged: no number is. */
  lemma OnlyTextFlagged(v: Value)
    requires Suspicious(v)
    ensures v.Str?
  {
    if v.Int? || v.Real? {
      NumbersPrintNumeric(v);
      NumericNotFlagged(ToStr(v));
    }
  }

  /** A flagged row keeps the raw, un-normalised value. */
  function FlagRow(mdb: string, rec: Record): ReportRow
  {
    [Str(mdb), Get(rec, "PARCELNO"), Str("Flagged as suspicious"), Get(rec, "suspicious")]
  }

  function FlagRows(mdb: string, recs: seq<Record>): seq<ReportRow>
  {
    if |recs| == 0 then []
    else
      var rec := recs[|recs| - 1];
      FlagRows(mdb, recs[..|recs| - 1]) + (if Suspicious(Get(rec, "suspicious")) then [FlagRow(mdb, rec)] else [])
  }

  lemma {:induction false} FlagRowsMembers(mdb: string, recs: seq<Record>)
    ensures forall r :: r in FlagRows(mdb, recs) <==>
      exists rec :: rec in recs && Suspicious(Get(rec, "suspicious")) && r == FlagRow(mdb, rec)
  {
    if |recs| > 0 {
      FlagRowsMembers(mdb, recs[..|recs| - 1]);
      assert recs == recs[..|recs| - 1] + [recs[|recs| - 1]];
    }
  }

  method ReadCursor(mdb: string, recs: seq<Record>) returns (rows: seq<ReportRow>)
    ensures rows == FlagRows(mdb, recs)
  {
    rows := [];
    var k := 0;
    while k < |recs|
      invariant 0 <= k <= |recs|
      invariant rows == FlagRows(mdb, recs[..k])
    {
      assert recs[..k + 1][..k] == recs[..k] && recs[..k + 1][k] == recs[k];
      if Suspicious(Get(recs[k], "suspicious")) {
        rows := rows + [FlagRow(mdb, recs[k])];
      }
      k := k + 1;
    }
    assert recs[..k] == recs;
  }

  // ------------------------------------------------------------- the run

  /** One Parcel class: the missing-column row, or the flagged records; the
      cursor raises when PARCELNO is missing. */
  function ClassPass(mdb: string, loc: Located): Pass
  {
    if "suspicious" !in FieldNames(loc.fc) then Pass([MissingColumnRow(mdb)], None)
    else if !HasFields(loc.fc, CursorFields) then Pass([], Some(MissingField(loc.path)))
    else Pass(FlagRows(mdb, loc.fc.records), None)
  }

  function ClassPasses(mdb: string, locs: seq<Located>): (ps: seq<Pass>)
    ensures |ps| == |locs| && forall i :: 0 <= i < |locs| ==> ps[i] == ClassPass(mdb, locs[i])
  {
    seq(|locs|, i requires 0 <= i < |locs| => ClassPass(mdb, locs[i]))
  }

  /** One MDB: the rows of its classes up to the first error, then one
      error row for that error. */
  function MdbRows(mdb: string, db: Db): seq<ReportRow>
  {
    match FeatureClassesOf(mdb, ["Parcel"], db)
    case None => [ErrorRow(mdb, CannotOpen(mdb))]
    case Some(locs) =>
      var p := Chain(ClassPasses(mdb, locs));
      p.rows + (if p.failure.Some? then [ErrorRow(mdb, p.failure.value)] else [])
  }

  function MdbRowsEach(mdbs: seq<string>, db: Db): (parts: seq<seq<ReportRow>>)
    ensures |parts| == |mdbs| && forall i :: 0 <= i < |mdbs| ==> parts[i] == MdbRows(mdbs[i], db)
  {
    seq(|mdbs|, i requires 0 <= i < |mdbs| => MdbRows(mdbs[i], db))
  }

  function AllMdbRows(mdbs: seq<string>, db: Db): seq<ReportRow>
  {
    Concat(MdbRowsEach(mdbs, db))
  }

  function Run(folder: string, tree: Option<Dir>, db: Db): RunResult
  {
    if folder == "" then RunResult(ValueError(FolderNotSet), None)
    else
      var mdbs := MdbFiles(folder, tree, DefaultExclusions);
      if |mdbs| == 0 then RunResult(ValueError(NoMdbFiles), None)
      else RunResult(Ok, Some([Header] + AllMdbRows(mdbs, db)))
  }

  /** The three kinds of row an MDB contributes, each naming that MDB. */
  ghost predicate MdbRow(mdb: string, r: ReportRow)
  {
    r == MissingColumnRow(mdb)
    || (exists e :: r == ErrorRow(mdb, e))
    || (|r| == 4 && r[0] == Str(mdb) && r[2] == Str("Flagged as suspicious") && Suspicious(r[3]))
  }

  lemma ClassRowsOfMdb(mdb: string, loc: Located, r: ReportRow)
    requires r in ClassPass(mdb, loc).rows
    ensures MdbRow(mdb, r)
  {
    FlagRowsMembers(mdb, loc.fc.records);
  }

  /** Every row written for an MDB is a missing-column row, an error row or
      a flagged record of that MDB. */
  lemma MdbRowsShape(mdb: string, db: Db, r: ReportRow)
    requires r in MdbRows(mdb, db)
    ensures MdbRow(mdb, r)
  {
    var found := FeatureClassesOf(mdb, ["Parcel"], db);
    if found.Some? {
      var ps := ClassPasses(mdb, found.value);
      if r in Chain(ps).rows {
        ChainRows(ps, r);
        var j :| 0 <= j < |ps| && r in ps[j].rows;
        ClassRowsOfMdb(mdb, found.value[j], r);
      }
    }
  }

  /** An error in one MDB costs only that MDB's remaining rows: the rows of
      every later MDB are still written. */
  lemma LaterMdbsStillReported(mdbs: seq<string>, db: Db, i: nat)
    requires i < |mdbs|
    ensures AllMdbRows(mdbs, db) == AllMdbRows(mdbs[..i], db) + MdbRows(mdbs[i], db) + AllMdbRows(mdbs[i + 1..], db)
  {
    var parts := MdbRowsEach(mdbs, db);
    ConcatSplit(parts, i);
    assert parts[..i] == MdbRowsEach(mdbs[..i], db);
    assert parts[i + 1..] == MdbRowsEach(mdbs[i + 1..], db);
  }

  method ScanClass(mdb: string, loc: Located) returns (rows: seq<ReportRow>, failure: Option<string>)
    ensures Pass(rows, failure) == ClassPass(mdb, loc)
  {
    var fieldNames := FieldNames(loc.fc);
    if "suspicious" !in fieldNames {
      return [MissingColumnRow(mdb)], None;
    }
    if !HasFields(loc.fc, CursorFields) {
      return [], Some(MissingField(loc.path));
    }
    rows := ReadCursor(mdb, loc.fc.records);
    failure := None;
  }

  /** The body of the `try` for one MDB, then its `except`. */
  method ScanMdb(mdb: string, db: Db) returns (rows: seq<ReportRow>)
    ensures rows == MdbRows(mdb, db)
  {
    var parcels := GetFeatureClasses(mdb, ["Parcel"], db);
    if parcels.None? {
      return [ErrorRow(mdb, CannotOpen(mdb))];
    }
    ghost var ps := ClassPasses(mdb, parcels.value);
    var failure: Option<string> := None;
    rows := [];
    var i := 0;
    while i < |parcels.value| && failure.None?
      invariant 0 <= i <= |parcels.value|
      invariant Chain(ps) == Then(Pass(rows, failure), Chain(ps[i..]))
    {
      ChainStep(Pass(rows, failure), ps, i);
      var more, raised := ScanClass(mdb, parcels.value[i]);
      rows, failure := rows + more, raised;
      i := i + 1;
    }
    if failure.Some? {
      rows := rows + [ErrorRow(mdb, failure.value)];
    }
  }

  method ScanMdbs(mdbs: seq<string>, db: Db) returns (rows: seq<ReportRow>)
    ensures rows == AllMdbRows(mdbs, db)
  {
    ghost var parts := MdbRowsEach(mdbs, db);
    rows := [];
    var i := 0;
    while i < |mdbs|
      invariant 0 <= i <= |mdbs|
      invariant Concat(parts) == rows + Concat(parts[i..])
    {
      var more := ScanMdb(mdbs[i], db);
      ConcatAdvance(parts, i, rows, more);
      rows := rows + more;
      i := i + 1;
    }
  }

  class SuspiciousColumnValidator {
    var folderPath: string
    /** 10_suspicious_column_report.csv in the folder. */
    var report: Option<seq<ReportRow>>

    constructor ()
      ensures folderPath == "" && report == None
    {
      folderPath := "";
      report := None;
    }

    method SetFolderPath(folderPath: string)
      modifies this
      ensures this.folderPath == folderPath && report == old(report)
    {
      this.folderPath := folderPath;
    }

    method RunValidation(tree: Option<Dir>, db: Db) returns (outcome: Outcome)
      modifies this
      ensures var r := Run(old(folderPath), tree, db);
        outcome == r.outcome && report == (if r.report.Some? then r.report else old(report))
      ensures folderPath == old(folderPath)
    {
      if folderPath == "" {
        return ValueError(FolderNotSet);
      }
      var mdbFiles := FindMdbFiles(folderPath, tree, DefaultExclusions);
      if |mdbFiles| == 0 {
        return ValueError(NoMdbFiles);
      }
      var rows := ScanMdbs(mdbFiles, db);
      report := Some([Header] + rows);
      outcome := Ok;
    }
  }
}
