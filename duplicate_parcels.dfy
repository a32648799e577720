/** `DuplicateParcelsValidator` (mdb_validator/duplicate_parcels.py): parcel
    numbers that occur more than once in a Parcel polygon class, read from
    the frequency tool's table. The row filter is shared with the stand-alone
    script test.py, which differs only in not skipping parcel number 0. */
module DuplicateParcels {
  import opened Values
  import opened Engine
  import opened Utils

  const Header: ReportRow := [Str("Source File"), Str("Parcel Number"), Str("Frequency")]

  const KeyFields: seq<string> := ["PARCELNO"]

  /** Python's `v != 0` is false exactly for a numeric zero: None and text
      compare unequal to 0. */
  predicate IsZero(v: Value)
  {
    v == Int(0) || v == Real(0.0)
  }

  /** A frequency group is written when it counts more than one record and,
      where the sentinel applies, its parcel number is not 0. */
  predicate Duplicated(g: Group, sentinel: bool)
  {
    g.frequency > 1 && !(sentinel && IsZero(Col(g.key, 0)))
  }

  function DuplicateRow(path: string, g: Group): ReportRow
  {
    [Str(path), Col(g.key, 0), Int(g.frequency)]
  }

  /** The rows written while reading a frequency table, in cursor order. */
  function DuplicateRows(path: string, gs: seq<Group>, sentinel: bool): seq<ReportRow>
  {
    if |gs| == 0 then []
    else
      var g := gs[|gs| - 1];
      DuplicateRows(path, gs[..|gs| - 1], sentinel) + (if Duplicated(g, sentinel) then [DuplicateRow(path, g)] else [])
  }

  /** The cursor loop over the frequency table. */
  method ReadFrequencyTable(path: string, gs: seq<Group>, sentinel: bool) returns (rows: seq<ReportRow>)
    ensures rows == DuplicateRows(path, gs, sentinel)
  {
    rows := [];
    var k := 0;
    while k < |gs|
      invariant 0 <= k <= |gs|
      invariant rows == DuplicateRows(path, gs[..k], sentinel)
    {
      if Duplicated(gs[k], sentinel) {
        rows := rows + [DuplicateRow(path, gs[k])];
      }
      assert gs[..k + 1][..k] == gs[..k];
      k := k + 1;
    }
    assert gs[..k] == gs;
  }

  /** How many records of `fc` carry parcel number `v`. */
  function Occurrences(fc: FeatureClass, v: Value): nat
  {
    multiset(KeysOf(fc.records, KeyFields))[[v]]
  }

  lemma {:induction false} DuplicateRowsMembers(path: string, gs: seq<Group>, sentinel: bool)
    ensures forall r :: r in DuplicateRows(path, gs, sentinel) <==>
      exists g :: g in gs && Duplicated(g, sentinel) && r == DuplicateRow(path, g)
  {
    if |gs| > 0 {
      var front := gs[..|gs| - 1];
      DuplicateRowsMembers(path, front, sentinel);
      assert gs == front + [gs[|gs| - 1]];
    }
  }

  /** No two rows name the same parcel number. */
  predicate DistinctParcels(rows: seq<ReportRow>)
  {
    forall a, b :: 0 <= a < b < |rows| ==> Col(rows[a], 1) != Col(rows[b], 1)
  }

  lemma AppendDistinct(rows: seq<ReportRow>, row: ReportRow)
    requires DistinctParcels(rows)
    requires forall a :: 0 <= a < |rows| ==> Col(rows[a], 1) != Col(row, 1)
    ensures DistinctParcels(rows + [row])
  {
    var t := rows + [row];
    forall a, b | 0 <= a < b < |t| ensures Col(t[a], 1) != Col(t[b], 1) {
      assert t[a] == rows[a];
      if b < |rows| {
        assert t[b] == rows[b];
      }
    }
  }

  /** Row `a` of a table is the row of one of its groups. */
  lemma {:induction false} RowFromGroup(path: string, gs: seq<Group>, sentinel: bool, a: nat)
    requires a < |DuplicateRows(path, gs, sentinel)|
    ensures exists j :: 0 <= j < |gs| && DuplicateRows(path, gs, sentinel)[a] == DuplicateRow(path, gs[j])
    decreases |gs|
  {
    var front := gs[..|gs| - 1];
    var before := DuplicateRows(path, front, sentinel);
    if a < |before| {
      RowFromGroup(path, front, sentinel, a);
      var j :| 0 <= j < |front| && before[a] == DuplicateRow(path, front[j]);
      assert front[j] == gs[j];
    } else {
      assert DuplicateRows(path, gs, sentinel)[a] == DuplicateRow(path, gs[|gs| - 1]);
    }
  }

  /** The last group's parcel number is not on any row written before it. */
  lemma LastParcelIsNew(path: string, gs: seq<Group>, sentinel: bool, before: seq<ReportRow>)
    requires |gs| > 0 && DistinctKeys(gs)
    requires forall g :: g in gs ==> |g.key| == 1
    requires before == DuplicateRows(path, gs[..|gs| - 1], sentinel)
    ensures forall a :: 0 <= a < |before| ==> Col(before[a], 1) != Col(gs[|gs| - 1].key, 0)
  {
    var front, last := gs[..|gs| - 1], gs[|gs| - 1];
    forall a | 0 <= a < |before|
      ensures Col(before[a], 1) != Col(last.key, 0)
    {
      RowFromGroup(path, front, sentinel, a);
      var j :| 0 <= j < |front| && before[a] == DuplicateRow(path, front[j]);
      var g := gs[j];
      assert front[j] == g && g in gs && last in gs;
      assert g.key != last.key;
      assert g.key == [g.key[0]] && last.key == [last.key[0]];
    }
  }

  lemma {:induction false} DuplicateRowsDistinct(path: string, gs: seq<Group>, sentinel: bool)
    requires DistinctKeys(gs)
    requires forall g :: g in gs ==> |g.key| == 1
    ensures DistinctParcels(DuplicateRows(path, gs, sentinel))
  {
    if |gs| > 0 {
      var front, last := gs[..|gs| - 1], gs[|gs| - 1];
      assert DistinctKeys(front) by {
        forall a, b | 0 <= a < b < |front| ensures front[a].key != front[b].key {
          assert front[a] == gs[a] && front[b] == gs[b];
        }
      }
      assert forall g :: g in front ==> g in gs;
      DuplicateRowsDistinct(path, front, sentinel);
      if Duplicated(last, sentinel) {
        LastParcelIsNew(path, gs, sentinel, DuplicateRows(path, front, sentinel));
        assert Col(DuplicateRow(path, last), 1) == Col(last.key, 0);
        AppendDistinct(DuplicateRows(path, front, sentinel), DuplicateRow(path, last));
      }
    }
  }

  lemma KeysHaveOneField(recs: seq<Record>, k: seq<Value>)
    requires k in KeysOf(recs, KeyFields)
    ensures k == [Col(k, 0)]
  {
    var i :| 0 <= i < |recs| && KeysOf(recs, KeyFields)[i] == k;
    assert |KeyOf(recs[i], KeyFields)| == 1;
  }

  /** What the report says about one class: a row `[path, v, n]` is written
      exactly for each parcel number `v` carried by `n > 1` records (0
      excepted under the sentinel), `n` is that number of records, and no
      parcel number gets two rows. */
  lemma DuplicateReportExact(path: string, fc: FeatureClass, sentinel: bool)
    requires HasFields(fc, KeyFields)
    ensures var rows := DuplicateRows(path, FrequencyAnalysis(fc, KeyFields).value, sentinel);
      (forall r :: r in rows ==>
        |r| == 3 && r[0] == Str(path) && r[2] == Int(Occurrences(fc, r[1]))
        && Occurrences(fc, r[1]) > 1 && !(sentinel && IsZero(r[1])))
      && (forall v :: Occurrences(fc, v) > 1 && !(sentinel && IsZero(v)) ==>
            [Str(path), v, Int(Occurrences(fc, v))] in rows)
      && DistinctParcels(rows)
  {
    var keys := KeysOf(fc.records, KeyFields);
    var gs := Frequency(keys);
    var rows := DuplicateRows(path, gs, sentinel);
    FrequencySound(keys);
    DuplicateRowsMembers(path, gs, sentinel);
    forall g | g in gs ensures |g.key| == 1 && g.key == [Col(g.key, 0)] {
      assert g.key in multiset(keys);
      KeysHaveOneField(fc.records, g.key);
    }
    forall r | r in rows
      ensures |r| == 3 && r[0] == Str(path) && r[2] == Int(Occurrences(fc, r[1]))
        && Occurrences(fc, r[1]) > 1 && !(sentinel && IsZero(r[1]))
    {
      var g :| g in gs && Duplicated(g, sentinel) && r == DuplicateRow(path, g);
      assert g.key == [r[1]];
    }
    forall v | Occurrences(fc, v) > 1 && !(sentinel && IsZero(v))
      ensures [Str(path), v, Int(Occurrences(fc, v))] in rows
    {
      assert [v] in keys;
      var g :| g in gs && g.key == [v];
      assert DuplicateRow(path, g) == [Str(path), v, Int(Occurrences(fc, v))];
    }
    DuplicateRowsDistinct(path, gs, sentinel);
  }

  // ------------------------------------------------------------- the run

  /** One class from `get_feature_classes(mdb, ["Parcel"])`: skipped unless
      it is a polygon class; the frequency tool raises when PARCELNO is
      missing. */
  function ClassPass(loc: Located): Pass
  {
    if loc.fc.shape != Polygon then Pass([], None)
    else match FrequencyAnalysis(loc.fc, KeyFields)
      case None => Pass([], Some(MissingField(loc.path)))
      case Some(gs) => Pass(DuplicateRows(loc.path, gs, true), None)
  }

  function ClassPasses(locs: seq<Located>): (ps: seq<Pass>)
    ensures |ps| == |locs| && forall i :: 0 <= i < |locs| ==> ps[i] == ClassPass(locs[i])
  {
    seq(|locs|, i requires 0 <= i < |locs| => ClassPass(locs[i]))
  }

  /** One MDB: its Parcel classes in order; an exception ends the run. */
  function MdbPass(mdb: string, db: Db): Pass
  {
    match FeatureClassesOf(mdb, ["Parcel"], db)
    case None => Pass([], Some(CannotOpen(mdb)))
    case Some(locs) => Chain(ClassPasses(locs))
  }

  function MdbPasses(mdbs: seq<string>, db: Db): (ps: seq<Pass>)
    ensures |ps| == |mdbs| && forall i :: 0 <= i < |mdbs| ==> ps[i] == MdbPass(mdbs[i], db)
  {
    seq(|mdbs|, i requires 0 <= i < |mdbs| => MdbPass(mdbs[i], db))
  }

  /** `run_validation` over the folder's tree: ValueError before the report
      is opened when the folder path is empty or holds no MDB file; else the
      header, then every MDB's rows until one raises. */
  function Run(folder: string, tree: Option<Dir>, db: Db): RunResult
  {
    if folder == "" then RunResult(ValueError(FolderNotSet), None)
    else
      var mdbs := MdbFiles(folder, tree, DefaultExclusions);
      if |mdbs| == 0 then RunResult(ValueError(NoMdbFiles), None)
      else
        var p := Chain(MdbPasses(mdbs, db));
        RunResult(OutcomeOf(p), Some([Header] + p.rows))
  }

  method ScanClass(loc: Located) returns (rows: seq<ReportRow>, failure: Option<string>)
    ensures Pass(rows, failure) == ClassPass(loc)
  {
    if loc.fc.shape != Polygon {
      return [], None;
    }
    var table := FrequencyAnalysis(loc.fc, KeyFields);
    if table.None? {
      return [], Some(MissingField(loc.path));
    }
    rows := ReadFrequencyTable(loc.path, table.value, true);
    failure := None;
  }

  method ScanMdb(mdb: string, db: Db) returns (rows: seq<ReportRow>, failure: Option<string>)
    ensures Pass(rows, failure) == MdbPass(mdb, db)
  {
    var parcels := GetFeatureClasses(mdb, ["Parcel"], db);
    if parcels.None? {
      return [], Some(CannotOpen(mdb));
    }
    ghost var ps := ClassPasses(parcels.value);
    rows, failure := [], None;
    var i := 0;
    while i < |parcels.value| && failure.None?
      invariant 0 <= i <= |parcels.value|
      invariant Chain(ps) == Then(Pass(rows, failure), Chain(ps[i..]))
    {
      ChainStep(Pass(rows, failure), ps, i);
      var more, raised := ScanClass(parcels.value[i]);
      rows, failure := rows + more, raised;
      i := i + 1;
    }
  }

  method ScanMdbs(mdbs: seq<string>, db: Db) returns (rows: seq<ReportRow>, failure: Option<string>)
    ensures Pass(rows, failure) == Chain(MdbPasses(mdbs, db))
  {
    ghost var ps := MdbPasses(mdbs, db);
    rows, failure := [], None;
    var i := 0;
    while i < |mdbs| && failure.None?
      invariant 0 <= i <= |mdbs|
      invariant Chain(ps) == Then(Pass(rows, failure), Chain(ps[i..]))
    {
      ChainStep(Pass(rows, failure), ps, i);
      var more, raised := ScanMdb(mdbs[i], db);
      rows, failure := rows + more, raised;
      i := i + 1;
    }
  }

  /** A row written for one class comes from a polygon class and states a
      true duplicate count of a parcel number other than 0. */
  lemma ClassRowsAreDuplicates(loc: Located, r: ReportRow)
    requires r in ClassPass(loc).rows
    ensures loc.fc.shape == Polygon && |r| == 3
    ensures r == [Str(loc.path), r[1], Int(Occurrences(loc.fc, r[1]))]
    ensures Occurrences(loc.fc, r[1]) > 1 && !IsZero(r[1])
  {
    DuplicateReportExact(loc.path, loc.fc, true);
  }

  /** A row written for one MDB comes from one of its Parcel classes. */
  lemma MdbRowsAreDuplicates(mdb: string, db: Db, r: ReportRow)
    requires r in MdbPass(mdb, db).rows
    ensures FeatureClassesOf(mdb, ["Parcel"], db).Some?
    ensures exists loc :: loc in FeatureClassesOf(mdb, ["Parcel"], db).value && loc.name == "Parcel"
                          && r in ClassPass(loc).rows
  {
    var locs := FeatureClassesOf(mdb, ["Parcel"], db).value;
    var cs := ClassPasses(locs);
    ChainRows(cs, r);
    var j :| 0 <= j < |cs| && r in cs[j].rows;
    Resolved(mdb, ["Parcel"], db, locs[j]);
  }

  /** Every data row of the report comes from one of the MDB files found
      and, by `MdbRowsAreDuplicates`, states a true duplicate. */
  lemma ReportRowsAreDuplicates(folder: string, tree: Option<Dir>, db: Db, r: ReportRow)
    requires Run(folder, tree, db).report.Some?
    requires r in Run(folder, tree, db).report.value[1..]
    ensures exists mdb :: mdb in MdbFiles(folder, tree, DefaultExclusions) && r in MdbPass(mdb, db).rows
  {
    var mdbs := MdbFiles(folder, tree, DefaultExclusions);
    var ps := MdbPasses(mdbs, db);
    assert r in Chain(ps).rows;
    ChainRows(ps, r);
    var i :| 0 <= i < |ps| && r in ps[i].rows;
    assert mdbs[i] in mdbs;
  }

  /** The validator object; `report` is duplicate_parcels_report.csv in the
      folder, None until a run opens it. */
  class DuplicateParcelsValidator {
    var folderPath: string
    var report: Option<seq<ReportRow>>

    constructor ()
      ensures folderPath == "" && report == None
    {
      folderPath := "";
      report := None;
    }

    method SetFolderPath(folderPath: string)
      modifies this
      ensures this.folderPath == folderPath && report == old(report)
    {
      this.folderPath := folderPath;
    }

    /** `tree` is the directory found at the folder path and `db` the MDB
        files the engine can open. */
    method RunValidation(tree: Option<Dir>, db: Db) returns (outcome: Outcome)
      modifies this
      ensures var r := Run(old(folderPath), tree, db);
        outcome == r.outcome && report == (if r.report.Some? then r.report else old(report))
      ensures folderPath == old(folderPath)
    {
      if folderPath == "" {
        return ValueError(FolderNotSet);
      }
      var mdbFiles := FindMdbFiles(folderPath, tree, DefaultExclusions);
      if mdbFiles == [] {
        return ValueError(NoMdbFiles);
      }
      var rows, failure := ScanMdbs(mdbFiles, db);
      report := Some([Header] + rows);
      outcome := OutcomeOf(Pass(rows, failure));
    }
  }
}
