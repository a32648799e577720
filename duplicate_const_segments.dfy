/** `DuplicateConstAndSegmentsValidator`
    (mdb_validator/duplicate_const_and_segments.py): Construction polygons
    and Segments lines that repeat the same key values, one frequency table
    per class under a fresh name. An error on one MDB is logged and the run
    goes on with the next. The validator applies the length test as written
    (`AsWritten`), which lets zero lengths through; `Corrected` is the
    intended test. */
module DuplicateConstSegments {
  import opened Values
  import opened Engine
  import opened Utils
  import DuplicateParcels

  const Header: ReportRow := [Str("Source File"), Str("ParFID"), Str("Shape_Area"), Str("Shape_Length"), Str("Frequency")]

  /** The two kinds of class checked, each with its own key fields. */
  datatype Kind = Construction | Segments

  function KeyFields(kind: Kind): seq<string>
  {
    match kind
    case Construction => ["ParFID", "Shape_Area", "Shape_Length"]
    case Segments => ["ParFID", "Shape_Length"]
  }

  /** The Shape_Length cell of a group's key. */
  function LengthOf(g: Group, kind: Kind): Value
  {
    Col(g.key, if kind == Construction then 2 else 1)
  }

  /** Construction rows copy the key; Segments rows put "  " in the
      Shape_Area column. */
  function RowOf(path: string, g: Group, kind: Kind): ReportRow
  {
    match kind
    case Construction => [Str(path), Col(g.key, 0), Col(g.key, 1), Col(g.key, 2), Int(g.frequency)]
    case Segments => [Str(path), Col(g.key, 0), Str("  "), Col(g.key, 1), Int(g.frequency)]
  }

  /** The length test as written, `str(length) != "0"`. */
  predicate LengthShownAsWritten(v: Value)
  {
    ToStr(v) != "0"
  }

  /** The filter as written: more than one record and a length that does not
      print as "0". */
  predicate KeptAsWritten(g: Group, kind: Kind)
  {
    g.frequency > 1 && LengthShownAsWritten(LengthOf(g, kind))
  }

  /** Shape_Length is a double, and a double never prints as "0": the
      written test lets every length through, zero included. */
  lemma LengthTestInertOnDoubles(g: Group, kind: Kind)
    requires LengthOf(g, kind).Real?
    ensures KeptAsWritten(g, kind) <==> g.frequency > 1
  {
    RealNeverDecimal(LengthOf(g, kind).r, 0);
  }

  /** A duplicated zero-length Construction polygon passes the written
      filter. */
  lemma ZeroLengthKeptAsWritten()
    ensures KeptAsWritten(Group([Int(7), Real(0.0), Real(0.0)], 2), Construction)
  {
    LengthTestInertOnDoubles(Group([Int(7), Real(0.0), Real(0.0)], 2), Construction);
  }

  /** A zero length, whether it arrives as a double, an integer or text. */
  predicate ZeroLength(v: Value)
  {
    ToStr(v) == "0" || v == Real(0.0)
  }

  /** The filter as intended: more than one record and a length that is not
      zero. */
  predicate Kept(g: Group, kind: Kind)
  {
    g.frequency > 1 && !ZeroLength(LengthOf(g, kind))
  }

  /** The intended filter never reports a zero length, double or integer,
      and otherwise agrees with the written one. */
  lemma KeptSkipsZeroLength(g: Group, kind: Kind)
    ensures DuplicateParcels.IsZero(LengthOf(g, kind)) ==> !Kept(g, kind)
    ensures Kept(g, kind) <==> KeptAsWritten(g, kind) && LengthOf(g, kind) != Real(0.0)
  {
    if LengthOf(g, kind) == Int(0) {
      assert ToStr(Int(0)) == NatToStr(0) == "0";
    }
  }

  /** Which length test a run applies: the one of lines 72 and 90, or the
      intended one. */
  datatype Filter = AsWritten | Corrected

  predicate Keeps(f: Filter, g: Group, kind: Kind)
  {
    match f
    case AsWritten => KeptAsWritten(g, kind)
    case Corrected => Kept(g, kind)
  }

  /** The rows written while reading one frequency table. */
  function KeptRows(f: Filter, path: string, gs: seq<Group>, kind: Kind): seq<ReportRow>
  {
    if |gs| == 0 then []
    else
      var g := gs[|gs| - 1];
      KeptRows(f, path, gs[..|gs| - 1], kind) + (if Keeps(f, g, kind) then [RowOf(path, g, kind)] else [])
  }

  /** The cursor loop of lines 69-73 or 87-91, with the test as written. */
  method ReadFrequencyTable(path: string, gs: seq<Group>, kind: Kind) returns (rows: seq<ReportRow>)
    ensures rows == KeptRows(AsWritten, path, gs, kind)
  {
    rows := [];
    var k := 0;
    while k < |gs|
      invariant 0 <= k <= |gs|
      invariant rows == KeptRows(AsWritten, path, gs[..k], kind)
    {
      if ToStr(LengthOf(gs[k], kind)) != "0" && gs[k].frequency > 1 {
        rows := rows + [RowOf(path, gs[k], kind)];
      }
      assert gs[..k + 1][..k] == gs[..k];
      k := k + 1;
    }
    assert gs[..k] == gs;
  }

  lemma {:induction false} KeptRowsMembers(f: Filter, path: string, gs: seq<Group>, kind: Kind)
    ensures forall r :: r in KeptRows(f, path, gs, kind) <==>
      exists g :: g in gs && Keeps(f, g, kind) && r == RowOf(path, g, kind)
  {
    if |gs| > 0 {
      KeptRowsMembers(f, path, gs[..|gs| - 1], kind);
      assert gs == gs[..|gs| - 1] + [gs[|gs| - 1]];
    }
  }

  /** A table with one duplicated zero-length Construction group: the
      written test reports it, the intended one does not. */
  lemma ZeroLengthTableRows(path: string)
    ensures var g := Group([Int(7), Real(0.0), Real(0.0)], 2);
      KeptRows(AsWritten, path, [g], Construction) == [[Str(path), Int(7), Real(0.0), Real(0.0), Int(2)]]
      && KeptRows(Corrected, path, [g], Construction) == []
  {
    var g := Group([Int(7), Real(0.0), Real(0.0)], 2);
    ZeroLengthKeptAsWritten();
    assert [g][..0] == [];
  }

  /** The intended filter writes no row whose Shape_Length is zero. */
  lemma CorrectedRowsNonZero(path: string, gs: seq<Group>, kind: Kind, r: ReportRow)
    requires r in KeptRows(Corrected, path, gs, kind)
    ensures |r| == 5 && !DuplicateParcels.IsZero(r[3])
  {
    KeptRowsMembers(Corrected, path, gs, kind);
    var g :| g in gs && Kept(g, kind) && r == RowOf(path, g, kind);
    KeptSkipsZeroLength(g, kind);
  }

  function Keys(fc: FeatureClass, kind: Kind): seq<seq<Value>>
  {
    KeysOf(fc.records, KeyFields(kind))
  }

  /** How many records of `fc` carry key `k`. */
  function Count(fc: FeatureClass, kind: Kind, k: seq<Value>): nat
  {
    multiset(Keys(fc, kind))[k]
  }

  /** `r` is the row for key `k`, which passes the filter with its true
      count. */
  predicate RowFor(f: Filter, path: string, fc: FeatureClass, kind: Kind, k: seq<Value>, r: ReportRow)
  {
    var g := Group(k, Count(fc, kind, k));
    Keeps(f, g, kind) && r == RowOf(path, g, kind)
  }

  /** What the report says about one class: a five-column row is written for
      exactly the key tuples carried by more than one record that pass the
      length test, with the number of such records. */
  lemma DuplicateKeysReported(f: Filter, path: string, fc: FeatureClass, kind: Kind)
    requires HasFields(fc, KeyFields(kind))
    ensures var rows := KeptRows(f, path, FrequencyAnalysis(fc, KeyFields(kind)).value, kind);
      (forall r :: r in rows ==> |r| == 5 && exists k :: k in Keys(fc, kind) && RowFor(f, path, fc, kind, k, r))
      && (forall k :: k in Keys(fc, kind) && Keeps(f, Group(k, Count(fc, kind, k)), kind) ==>
            RowOf(path, Group(k, Count(fc, kind, k)), kind) in rows)
  {
    var keys := Keys(fc, kind);
    var gs := Frequency(keys);
    var rows := KeptRows(f, path, gs, kind);
    FrequencySound(keys);
    KeptRowsMembers(f, path, gs, kind);
    forall r | r in rows
      ensures |r| == 5 && exists k :: k in keys && RowFor(f, path, fc, kind, k, r)
    {
      var g :| g in gs && Keeps(f, g, kind) && r == RowOf(path, g, kind);
      assert g.key in multiset(keys);
      assert g == Group(g.key, Count(fc, kind, g.key));
      assert RowFor(f, path, fc, kind, g.key, r);
    }
    forall k | k in keys && Keeps(f, Group(k, Count(fc, kind, k)), kind)
      ensures RowOf(path, Group(k, Count(fc, kind, k)), kind) in rows
    {
      var g :| g in gs && g.key == k;
      assert g == Group(k, Count(fc, kind, k));
    }
  }

  /** Names the engine hands out for frequency tables; `uuid4` is modelled
      by a serial number, distinct serials giving distinct names. */
  function TableName(serial: nat): string
  {
    "in_memory/freq_" + NatToStr(serial)
  }

  lemma TableNamesDistinct(a: nat, b: nat)
    requires a != b
    ensures TableName(a) != TableName(b)
  {
    if TableName(a) == TableName(b) {
      assert NatToStr(a) == TableName(a)[|"in_memory/freq_"|..];
      assert NatToStr(b) == TableName(b)[|"in_memory/freq_"|..];
      NatToStrInjective(a, b);
    }
  }

  // ------------------------------------------------------------- the run

  /** One class: a Construction class that is not a polygon class is
      skipped (Segments classes are not shape-checked); the frequency tool
      raises when a key field is missing. */
  function ClassPass(f: Filter, loc: Located, kind: Kind): Pass
  {
    if kind == Construction && loc.fc.shape != Polygon then Pass([], None)
    else match FrequencyAnalysis(loc.fc, KeyFields(kind))
      case None => Pass([], Some(MissingField(loc.path)))
      case Some(gs) => Pass(KeptRows(f, loc.path, gs, kind), None)
  }

  /** Whether a class consumes a table name. */
  predicate UsesTable(loc: Located, kind: Kind)
  {
    !(kind == Construction && loc.fc.shape != Polygon)
  }

  function ClassPasses(f: Filter, locs: seq<Located>, kind: Kind): (ps: seq<Pass>)
    ensures |ps| == |locs| && forall i :: 0 <= i < |locs| ==> ps[i] == ClassPass(f, locs[i], kind)
  {
    seq(|locs|, i requires 0 <= i < |locs| => ClassPass(f, locs[i], kind))
  }

  /** One MDB: Construction classes, then Segments classes. The first
      error ends the MDB; what it wrote before stays, and the error is
      caught. */
  function MdbRows(f: Filter, mdb: string, db: Db): seq<ReportRow>
  {
    if mdb !in db then []
    else
      var cs := FeatureClassesOf(mdb, ["Construction"], db).value;
      var ss := FeatureClassesOf(mdb, ["Segments"], db).value;
      Chain(ClassPasses(f, cs, Construction) + ClassPasses(f, ss, Segments)).rows
  }

  function MdbRowsEach(f: Filter, mdbs: seq<string>, db: Db): (parts: seq<seq<ReportRow>>)
    ensures |parts| == |mdbs| && forall i :: 0 <= i < |mdbs| ==> parts[i] == MdbRows(f, mdbs[i], db)
  {
    seq(|mdbs|, i requires 0 <= i < |mdbs| => MdbRows(f, mdbs[i], db))
  }

  /** Each MDB's rows, MDB after MDB: an error in one does not stop the
      next. */
  function AllMdbRows(f: Filter, mdbs: seq<string>, db: Db): seq<ReportRow>
  {
    Concat(MdbRowsEach(f, mdbs, db))
  }

  /** The run with a given length test: `AsWritten` is the validator as
      written, `Corrected` the intended one. */
  function Run(f: Filter, folder: string, tree: Option<Dir>, db: Db): RunResult
  {
    if folder == "" then RunResult(ValueError(FolderNotSet), None)
    else
      var mdbs := MdbFiles(folder, tree, DefaultExclusions);
      if |mdbs| == 0 then RunResult(ValueError(NoMdbFiles), None)
      else RunResult(Ok, Some([Header] + AllMdbRows(f, mdbs, db)))
  }

  /** No row the corrected filter writes for one MDB has a zero
      Shape_Length. */
  lemma CorrectedMdbNonZero(mdb: string, db: Db, r: ReportRow)
    requires r in MdbRows(Corrected, mdb, db)
    ensures |r| == 5 && !DuplicateParcels.IsZero(r[3])
  {
    var cs := FeatureClassesOf(mdb, ["Construction"], db).value;
    var ss := FeatureClassesOf(mdb, ["Segments"], db).value;
    var ps := ClassPasses(Corrected, cs, Construction) + ClassPasses(Corrected, ss, Segments);
    ChainRows(ps, r);
    var k :| 0 <= k < |ps| && r in ps[k].rows;
    var loc, kind := if k < |cs| then cs[k] else ss[k - |cs|], if k < |cs| then Construction else Segments;
    assert ps[k] == ClassPass(Corrected, loc, kind);
    CorrectedRowsNonZero(loc.path, FrequencyAnalysis(loc.fc, KeyFields(kind)).value, kind, r);
  }

  /** No row of the corrected run has a zero Shape_Length. */
  lemma CorrectedRunNonZero(mdbs: seq<string>, db: Db, r: ReportRow)
    requires r in AllMdbRows(Corrected, mdbs, db)
    ensures |r| == 5 && !DuplicateParcels.IsZero(r[3])
  {
    var parts := MdbRowsEach(Corrected, mdbs, db);
    ConcatRows(parts, r);
    var i :| 0 <= i < |parts| && r in parts[i];
    CorrectedMdbNonZero(mdbs[i], db, r);
  }

  /** One class, with the table name `TableName(serial)` when it needs one.
      The table is created only when the tool succeeds and is deleted after
      it is read. */
  method ScanClass(loc: Located, kind: Kind, serial: nat, scratch: Scratch)
    returns (rows: seq<ReportRow>, failure: Option<string>, next: nat)
    requires forall n :: TableName(n) !in scratch.live
    modifies scratch
    ensures Pass(rows, failure) == ClassPass(AsWritten, loc, kind)
    ensures next == if UsesTable(loc, kind) then serial + 1 else serial
    ensures scratch.live == old(scratch.live)
  {
    if !UsesTable(loc, kind) {
      return [], None, serial;
    }
    var frequencyTable := TableName(serial);
    next := serial + 1;
    var table := FrequencyAnalysis(loc.fc, KeyFields(kind));
    if table.None? {
      return [], Some(MissingField(loc.path)), next;
    }
    scratch.Create(frequencyTable);
    rows := ReadFrequencyTable(loc.path, table.value, kind);
    failure := None;
    scratch.Delete(frequencyTable);
  }

  method ScanClasses(locs: seq<Located>, kind: Kind, serial: nat, scratch: Scratch)
    returns (rows: seq<ReportRow>, failure: Option<string>, next: nat)
    requires forall n :: TableName(n) !in scratch.live
    modifies scratch
    ensures Pass(rows, failure) == Chain(ClassPasses(AsWritten, locs, kind))
    ensures next >= serial
    ensures scratch.live == old(scratch.live)
  {
    ghost var ps := ClassPasses(AsWritten, locs, kind);
    rows, failure, next := [], None, serial;
    var i := 0;
    while i < |locs| && failure.None?
      invariant 0 <= i <= |locs| && next >= serial
      invariant Chain(ps) == Then(Pass(rows, failure), Chain(ps[i..]))
      invariant scratch.live == old(scratch.live)
    {
      ChainStep(Pass(rows, failure), ps, i);
      var more, raised;
      more, raised, next := ScanClass(locs[i], kind, next, scratch);
      rows, failure := rows + more, raised;
      i := i + 1;
    }
  }

  /** The `try` body for one MDB, with its `except ... continue`. */
  method ScanMdb(mdb: string, db: Db, serial: nat, scratch: Scratch) returns (rows: seq<ReportRow>, next: nat)
    requires forall n :: TableName(n) !in scratch.live
    modifies scratch
    ensures rows == MdbRows(AsWritten, mdb, db)
    ensures next >= serial
    ensures scratch.live == old(scratch.live)
  {
    var constructions := GetFeatureClasses(mdb, ["Construction"], db);
    if constructions.None? {
      return [], serial;
    }
    var seg := GetFeatureClasses(mdb, ["Segments"], db);
    ghost var ps := ClassPasses(AsWritten, constructions.value, Construction);
    ghost var qs := ClassPasses(AsWritten, seg.value, Segments);
    var failure;
    rows, failure, next := ScanClasses(constructions.value, Construction, serial, scratch);
    if failure.None? {
      var more;
      more, failure, next := ScanClasses(seg.value, Segments, next, scratch);
      rows := rows + more;
      ChainThen(ps, qs);
    } else {
      ChainThen(ps, qs);
    }
  }

  /** Running two lists of steps one after the other. */
  lemma {:induction false} ChainThen(ps: seq<Pass>, qs: seq<Pass>)
    ensures Chain(ps + qs) == Then(Chain(ps), Chain(qs))
  {
    if |ps| > 0 {
      assert (ps + qs)[1..] == ps[1..] + qs;
      ChainThen(ps[1..], qs);
      ThenAssoc(ps[0], Chain(ps[1..]), Chain(qs));
    } else {
      assert ps + qs == qs;
      assert [] + Chain(qs).rows == Chain(qs).rows;
    }
  }

  method ScanMdbs(mdbs: seq<string>, db: Db, scratch: Scratch) returns (rows: seq<ReportRow>)
    requires forall n :: TableName(n) !in scratch.live
    modifies scratch
    ensures rows == AllMdbRows(AsWritten, mdbs, db)
    ensures scratch.live == old(scratch.live)
  {
    ghost var parts := MdbRowsEach(AsWritten, mdbs, db);
    rows := [];
    var serial := 0;
    var i := 0;
    while i < |mdbs|
      invariant 0 <= i <= |mdbs|
      invariant Concat(parts) == rows + Concat(parts[i..])
      invariant scratch.live == old(scratch.live)
    {
      ConcatStep(parts, i);
      var more;
      more, serial := ScanMdb(mdbs[i], db, serial, scratch);
      rows := rows + more;
      i := i + 1;
    }
  }

  /** An error in one MDB costs only that MDB's remaining rows: the rows
      of every later MDB are still written. */
  lemma LaterMdbsStillReported(f: Filter, mdbs: seq<string>, db: Db, i: nat)
    requires i < |mdbs|
    ensures AllMdbRows(f, mdbs, db) == AllMdbRows(f, mdbs[..i], db) + MdbRows(f, mdbs[i], db) + AllMdbRows(f, mdbs[i + 1..], db)
  {
    var parts := MdbRowsEach(f, mdbs, db);
    ConcatSplit(parts, i);
    assert parts[..i] == MdbRowsEach(f, mdbs[..i], db);
    assert parts[i + 1..] == MdbRowsEach(f, mdbs[i + 1..], db);
  }

  class DuplicateConstAndSegmentsValidator {
    var folderPath: string
    /** 09_duplicate_segments_construction_report.csv in the folder. */
    var report: Option<seq<ReportRow>>

    constructor ()
      ensures folderPath == "" && report == None
    {
      folderPath := "";
      report := None;
    }

    method SetFolderPath(folderPath: string)
      modifies this
      ensures this.folderPath == folderPath && report == old(report)
    {
      this.folderPath := folderPath;
    }

    /** No frequency table outlives the run: `scratch` ends as it began. */
    method RunValidation(tree: Option<Dir>, db: Db, scratch: Scratch) returns (outcome: Outcome)
      requires forall n :: TableName(n) !in scratch.live
      modifies this, scratch
      ensures var r := Run(AsWritten, old(folderPath), tree, db);
        outcome == r.outcome && report == (if r.report.Some? then r.report else old(report))
      ensures folderPath == old(folderPath)
      ensures scratch.live == old(scratch.live)
    {
      if folderPath == "" {
        return ValueError(FolderNotSet);
      }
      var mdbFiles := FindMdbFiles(folderPath, tree, DefaultExclusions);
      if mdbFiles == [] {
        return ValueError(NoMdbFiles);
      }
      var rows := ScanMdbs(mdbFiles, db, scratch);
      report := Some([Header] + rows);
      outcome := Ok;
    }
  }
}
