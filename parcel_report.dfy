/** The stand-alone duplicate-parcel script test.py (`process_mdb_files`):
    the .mdb files directly in one folder, their Parcel polygon classes, and
    every parcel number counted more than once, 0 included. */
module ParcelReport {
  import opened Values
  import opened Engine
  import opened Utils
  import DuplicateParcels

  const Header: ReportRow := [Str("Source File"), Str("Parcel Number"), Str("Frequency")]

  const FrequencyTable: string := "in_memory/frequency_table"

  /** Line 22: the entries of `os.listdir` whose name ends in ".mdb", case
      included, joined to the folder; no sub-folder is searched. */
  function MdbEntries(directory: string, entries: seq<string>): seq<string>
  {
    if |entries| == 0 then []
    else
      var f := entries[|entries| - 1];
      MdbEntries(directory, entries[..|entries| - 1]) + (if EndsWith(f, ".mdb") then [Join(directory, f)] else [])
  }

  lemma {:induction false} MdbEntriesMembers(directory: string, entries: seq<string>)
    ensures forall p :: p in MdbEntries(directory, entries) <==>
      exists f :: f in entries && EndsWith(f, ".mdb") && p == Join(directory, f)
  {
    if |entries| > 0 {
      MdbEntriesMembers(directory, entries[..|entries| - 1]);
      assert entries == entries[..|entries| - 1] + [entries[|entries| - 1]];
    }
  }

  /** The suffix test is case-sensitive: "A.MDB" is not listed. */
  lemma UpperSuffixNotListed(directory: string)
    ensures MdbEntries(directory, ["A.MDB"]) == []
  {
    assert !EndsWith("A.MDB", ".mdb") by {
      assert "A.MDB"[1..][1] == 'M';
    }
    assert ["A.MDB"][..0] == [];
  }

  method ListMdbFiles(directory: string, entries: seq<string>) returns (mdbFiles: seq<string>)
    ensures mdbFiles == MdbEntries(directory, entries)
  {
    mdbFiles := [];
    var k := 0;
    while k < |entries|
      invariant 0 <= k <= |entries|
      invariant mdbFiles == MdbEntries(directory, entries[..k])
    {
      if EndsWith(entries[k], ".mdb") {
        mdbFiles := mdbFiles + [Join(directory, entries[k])];
      }
      assert entries[..k + 1][..k] == entries[..k];
      k := k + 1;
    }
    assert entries[..k] == entries;
  }

  /** Lines 31-34 keep a class only when it is a polygon class. */
  function Polygons(locs: seq<Located>): seq<Located>
  {
    if |locs| == 0 then []
    else
      var loc := locs[|locs| - 1];
      Polygons(locs[..|locs| - 1]) + (if loc.fc.shape == Polygon then [loc] else [])
  }

  lemma {:induction false} PolygonsMembers(locs: seq<Located>)
    ensures forall loc :: loc in Polygons(locs) <==> loc in locs && loc.fc.shape == Polygon
  {
    if |locs| > 0 {
      PolygonsMembers(locs[..|locs| - 1]);
      assert locs == locs[..|locs| - 1] + [locs[|locs| - 1]];
    }
  }

  /** The first pass of the script: the Parcel polygon classes of every
      MDB, or the error raised by an MDB the engine cannot open. */
  datatype Collected = Collected(classes: seq<Located>) | Crashed(error: string)

  /** Lines 25-34. The datasets are walked as in `get_feature_classes`,
      with the exact name "Parcel". */
  function Collect(mdbs: seq<string>, db: Db): Collected
  {
    if |mdbs| == 0 then Collected([])
    else
      var c := Collect(mdbs[..|mdbs| - 1], db);
      var mdb := mdbs[|mdbs| - 1];
      if c.Crashed? then c
      else match FeatureClassesOf(mdb, ["Parcel"], db)
        case None => Crashed(CannotOpen(mdb))
        case Some(locs) => Collected(c.classes + Polygons(locs))
  }

  lemma {:induction false} CrashSticks(mdbs: seq<string>, i: nat, db: Db)
    requires i <= |mdbs| && Collect(mdbs[..i], db).Crashed?
    ensures Collect(mdbs, db) == Collect(mdbs[..i], db)
    decreases |mdbs| - i
  {
    if i < |mdbs| {
      assert mdbs[..i + 1][..i] == mdbs[..i];
      CrashSticks(mdbs, i + 1, db);
    } else {
      assert mdbs[..i] == mdbs;
    }
  }

  /** Every class collected is a polygon class named exactly Parcel from
      one of the MDB files. */
  lemma {:induction false} CollectedAreParcelPolygons(mdbs: seq<string>, db: Db)
    requires Collect(mdbs, db).Collected?
    ensures forall loc :: loc in Collect(mdbs, db).classes ==>
      loc.name == "Parcel" && loc.fc.name == "Parcel" && loc.fc.shape == Polygon
  {
    if |mdbs| > 0 {
      var front, mdb := mdbs[..|mdbs| - 1], mdbs[|mdbs| - 1];
      CollectedAreParcelPolygons(front, db);
      var locs := FeatureClassesOf(mdb, ["Parcel"], db).value;
      PolygonsMembers(locs);
      forall loc | loc in Polygons(locs) ensures loc.name == "Parcel" && loc.fc.name == "Parcel" {
        Resolved(mdb, ["Parcel"], db, loc);
      }
    }
  }

  method CollectParcels(mdbs: seq<string>, db: Db) returns (c: Collected)
    ensures c == Collect(mdbs, db)
  {
    var parcelFiles: seq<Located> := [];
    var i := 0;
    while i < |mdbs|
      invariant 0 <= i <= |mdbs|
      invariant Collect(mdbs[..i], db) == Collected(parcelFiles)
    {
      assert mdbs[..i + 1][..i] == mdbs[..i];
      var found := GetFeatureClasses(mdbs[i], ["Parcel"], db);
      if found.None? {
        CrashSticks(mdbs, i + 1, db);
        return Crashed(CannotOpen(mdbs[i]));
      }
      var j := 0;
      while j < |found.value|
        invariant 0 <= j <= |found.value|
        invariant parcelFiles == Collect(mdbs[..i], db).classes + Polygons(found.value[..j])
      {
        if found.value[j].fc.shape == Polygon {
          parcelFiles := parcelFiles + [found.value[j]];
        }
        assert found.value[..j + 1][..j] == found.value[..j];
        j := j + 1;
      }
      assert found.value[..j] == found.value;
      i := i + 1;
    }
    assert mdbs[..i] == mdbs;
    return Collected(parcelFiles);
  }

  /** Lines 55-68 for one class: the rows of every group counted more than
      once; an ExecuteError (a missing PARCELNO) writes nothing and is
      caught. */
  function ClassRows(loc: Located): seq<ReportRow>
  {
    match FrequencyAnalysis(loc.fc, DuplicateParcels.KeyFields)
    case None => []
    case Some(gs) => DuplicateParcels.DuplicateRows(loc.path, gs, false)
  }

  function AllClassRows(locs: seq<Located>): seq<ReportRow>
  {
    if |locs| == 0 then [] else AllClassRows(locs[..|locs| - 1]) + ClassRows(locs[|locs| - 1])
  }

  /** Without the sentinel, a parcel number 0 carried by several records is
      reported like any other. */
  lemma ZeroIsReported(loc: Located)
    requires HasFields(loc.fc, DuplicateParcels.KeyFields)
    requires DuplicateParcels.Occurrences(loc.fc, Int(0)) > 1
    ensures [Str(loc.path), Int(0), Int(DuplicateParcels.Occurrences(loc.fc, Int(0)))] in ClassRows(loc)
  {
    DuplicateParcels.DuplicateReportExact(loc.path, loc.fc, false);
  }

  /** `process_mdb_files(mdb_directory, output_csv)`. `entries` is what
      `os.listdir` returns, None when it raises. No CSV is written when an
      MDB cannot be opened or no Parcel polygon class is found. */
  function Process(directory: string, entries: Option<seq<string>>, db: Db): RunResult
  {
    if entries.None? then RunResult(Raised("cannot list " + directory), None)
    else match Collect(MdbEntries(directory, entries.value), db)
      case Crashed(e) => RunResult(Raised(e), None)
      case Collected(locs) =>
        if |locs| == 0 then RunResult(Ok, None)
        else RunResult(Ok, Some([Header] + AllClassRows(locs)))
  }

  /** The second pass: each class's frequency table is read, then deleted,
      whether or not the tool raised. */
  method ReportClasses(locs: seq<Located>, scratch: Scratch) returns (rows: seq<ReportRow>)
    requires |locs| > 0
    modifies scratch
    ensures rows == AllClassRows(locs)
    ensures scratch.live == old(scratch.live) - {FrequencyTable}
  {
    rows := [];
    var i := 0;
    while i < |locs|
      invariant 0 <= i <= |locs|
      invariant rows == AllClassRows(locs[..i])
      invariant scratch.live == old(scratch.live) - (if i > 0 then {FrequencyTable} else {})
    {
      var table := FrequencyAnalysis(locs[i].fc, DuplicateParcels.KeyFields);
      if table.Some? {
        scratch.Create(FrequencyTable);
        var more := DuplicateParcels.ReadFrequencyTable(locs[i].path, table.value, false);
        rows := rows + more;
      }
      scratch.Delete(FrequencyTable);
      assert locs[..i + 1][..i] == locs[..i];
      i := i + 1;
    }
    assert locs[..i] == locs;
  }

  method ProcessMdbFiles(directory: string, entries: Option<seq<string>>, db: Db, scratch: Scratch)
    returns (outcome: Outcome, csv: Option<seq<ReportRow>>)
    modifies scratch
    ensures RunResult(outcome, csv) == Process(directory, entries, db)
    ensures csv.Some? ==> scratch.live == old(scratch.live) - {FrequencyTable}
    ensures csv.None? ==> scratch.live == old(scratch.live)
  {
    if entries.None? {
      return Raised("cannot list " + directory), None;
    }
    var mdbFiles := ListMdbFiles(directory, entries.value);
    var collected := CollectParcels(mdbFiles, db);
    if collected.Crashed? {
      return Raised(collected.error), None;
    }
    if collected.classes == [] {
      return Ok, None;
    }
    var rows := ReportClasses(collected.classes, scratch);
    return Ok, Some([Header] + rows);
  }
}
