/** `ParcelOverlapValidator` (mdb_validator/topology_check.py): each MDB's
    Parcel class is copied into a Cadastre dataset, a topology with the
    overlap rule is validated, and the exported error triples are correlated
    with the parcels' attributes into one report per MDB. The topology tools
    are the engine's: their export, per MDB and cluster tolerance, is an
    input (`topo`); an MDB and tolerance missing from it make the tools
    raise. */
module Topology {
  import opened Values
  import opened Engine
  import opened Utils

  const DefaultLayer: string := "Parcel"
  const ReportPrefix: string := "Parcel_Overlap_Report"
  const CadastreName: string := "Cadastre"
  const ErrorsName: string := "temp_overlap_errors"

  // ------------------------------------------------------ cluster tolerance

  /** The `cluster_tolerance` attribute: a number, or text such as the
      default "0.001 Meters". */
  datatype Tolerance = Number(x: real) | Words(s: string)

  const DefaultTolerance: Tolerance := Words("0.001 Meters")

  /** Line 108: a number is used as it is; anything else becomes 0.001. */
  function EffectiveTolerance(t: Tolerance): real
  {
    if t.Number? then t.x else 0.001
  }

  /** Text never reaches the engine: the default "0.001 Meters", and any
      other text, falls back to 0.001; a number passes unchanged. */
  lemma ToleranceFallback(t: Tolerance)
    ensures t.Words? ==> EffectiveTolerance(t) == 0.001
    ensures t.Number? ==> EffectiveTolerance(t) == t.x
    ensures EffectiveTolerance(DefaultTolerance) == 0.001
  {
  }

  /** The staging dataset of an MDB. */
  function Cadastre(mdb: string): string
  {
    Join(mdb, CadastreName)
  }

  /** Line 124: the exported error polygons, whose name the engine suffixes
      with "_poly". */
  function ErrorPath(mdb: string): string
  {
    Join(Cadastre(mdb), ErrorsName) + "_poly"
  }

  lemma ErrorPathInCadastre(mdb: string)
    ensures EndsWith(ErrorPath(mdb), "_poly")
    ensures StartsWith(ErrorPath(mdb), Join(Cadastre(mdb), ErrorsName))
  {
    var p := Join(Cadastre(mdb), ErrorsName);
    assert (p + "_poly")[..|p|] == p;
    assert (p + "_poly")[|p + "_poly"| - 5..] == "_poly";
  }

  // ------------------------------------------------------------- file names

  /** The characters lines 142-143 keep: "-_.() ", ASCII letters and
      digits. */
  predicate ValidChar(c: char)
  {
    c in "-_.() " || 'a' <= c <= 'z' || 'A' <= c <= 'Z' || '0' <= c <= '9'
  }

  function KeepValid(s: string): string
  {
    if |s| == 0 then []
    else KeepValid(s[..|s| - 1]) + (if ValidChar(s[|s| - 1]) then [s[|s| - 1]] else [])
  }

  /** `s.replace(' ', '_')`. */
  function Underscored(s: string): (t: string)
    ensures |t| == |s|
    ensures forall k :: 0 <= k < |s| ==> t[k] == if s[k] == ' ' then '_' else s[k]
  {
    seq(|s|, k requires 0 <= k < |s| => if s[k] == ' ' then '_' else s[k])
  }

  /** Lines 142-144: the base name cleaned for the report's file name. */
  function CleanName(s: string): string
  {
    Underscored(KeepValid(s))
  }

  lemma {:induction false} KeepValidMembers(s: string)
    ensures forall c :: c in KeepValid(s) <==> c in s && ValidChar(c)
  {
    if |s| > 0 {
      KeepValidMembers(s[..|s| - 1]);
      assert s == s[..|s| - 1] + [s[|s| - 1]];
    }
  }

  lemma {:induction false} KeepValidAll(s: string)
    requires forall k :: 0 <= k < |s| ==> ValidChar(s[k])
    ensures KeepValid(s) == s
  {
    if |s| > 0 {
      KeepValidAll(s[..|s| - 1]);
      assert s == s[..|s| - 1] + [s[|s| - 1]];
    }
  }

  /** The cleaned name holds only valid characters and no space. */
  lemma CleanNameChars(s: string)
    ensures forall c :: c in CleanName(s) ==> ValidChar(c) && c != ' '
    ensures |CleanName(s)| <= |s|
  {
    KeepValidMembers(s);
    KeepValidLength(s);
    var t := KeepValid(s);
    forall c | c in CleanName(s) ensures ValidChar(c) && c != ' ' {
      var k :| 0 <= k < |t| && CleanName(s)[k] == c;
      assert t[k] in t;
    }
  }

  lemma {:induction false} KeepValidLength(s: string)
    ensures |KeepValid(s)| <= |s|
  {
    if |s| > 0 {
      KeepValidLength(s[..|s| - 1]);
    }
  }

  /** A name that is already clean is kept as it is, so cleaning twice is
      cleaning once. */
  lemma CleanNameIdempotent(s: string)
    ensures CleanName(CleanName(s)) == CleanName(s)
  {
    var t := CleanName(s);
    CleanNameChars(s);
    forall k | 0 <= k < |t| ensures ValidChar(t[k]) && t[k] != ' ' {
      assert t[k] in t;
    }
    KeepValidAll(t);
  }

  /** `str.rfind(c)`: the last index of `c`, -1 when there is none. */
  function RFind(s: string, c: char): (r: int)
    ensures -1 <= r < |s|
    ensures r >= 0 ==> s[r] == c
    ensures forall k :: r < k < |s| ==> s[k] != c
  {
    if |s| == 0 then -1
    else if s[|s| - 1] == c then |s| - 1
    else RFind(s[..|s| - 1], c)
  }

  /** `os.path.splitext(name)[0]` of a base name: the text before the last
      dot, unless only dots precede it (a leading dot starts no
      extension). */
  function RootOf(name: string): string
  {
    var d := RFind(name, '.');
    if d >= 0 && exists k :: 0 <= k < d && name[k] != '.' then name[..d] else name
  }

  /** "a.b.mdb" has root "a.b": only the last extension goes. */
  lemma RootOfExtension(f: string, ext: string)
    requires '.' !in ext
    requires exists k :: 0 <= k < |f| && f[k] != '.'
    ensures RootOf(f + "." + ext) == f
  {
    var x := f + "." + ext;
    var d := RFind(x, '.');
    assert x[|f|] == '.';
    assert d == |f|;
    var k :| 0 <= k < |f| && f[k] != '.';
    assert x[k] == f[k];
    assert x[..d] == f;
  }

  /** A name whose only dot leads it has no extension. */
  lemma HiddenNameKeepsDot(ext: string)
    requires '.' !in ext
    ensures RootOf("." + ext) == "." + ext
  {
    var x := "." + ext;
    var d := RFind(x, '.');
    assert x[0] == '.';
    assert d == 0;
  }

  /** The folder of one MDB's outputs, named after its raw base name
      (line 146). */
  function MdbFolder(outputFolder: string, mdb: string): string
  {
    Join(outputFolder, RootOf(Basename(mdb)))
  }

  /** Lines 175-178: the report and the shapefile, named after the cleaned
      base name. */
  function CsvPath(outputFolder: string, mdb: string): string
  {
    Join(MdbFolder(outputFolder, mdb), CleanName(RootOf(Basename(mdb))) + "_Overlaps.csv")
  }

  function ShpPath(outputFolder: string, mdb: string): string
  {
    Join(MdbFolder(outputFolder, mdb), CleanName(RootOf(Basename(mdb))) + "_Overlaps.shp")
  }

  // ------------------------------------------------------ attribute fields

  /** Line 184: geometry and object-id fields, and names starting with
      "Shape_" or "OBJECTID", are not attributes. */
  predicate IsAttribute(f: Field)
  {
    f.kind != Geometry && f.kind != Oid && !StartsWith(f.name, "Shape_") && !StartsWith(f.name, "OBJECTID")
  }

  function AttributeFields(fs: seq<Field>): seq<string>
  {
    if |fs| == 0 then []
    else AttributeFields(fs[..|fs| - 1]) + (if IsAttribute(fs[|fs| - 1]) then [fs[|fs| - 1].name] else [])
  }

  /** A name is listed iff some field of that name is an attribute. */
  lemma {:induction false} AttributeFieldsMembers(fs: seq<Field>)
    ensures forall n :: n in AttributeFields(fs) <==> exists f :: f in fs && IsAttribute(f) && f.name == n
  {
    if |fs| > 0 {
      AttributeFieldsMembers(fs[..|fs| - 1]);
      assert fs == fs[..|fs| - 1] + [fs[|fs| - 1]];
    }
  }

  /** No listed name starts with "Shape_" or "OBJECTID". */
  lemma AttributeFieldsNoShape(fs: seq<Field>)
    ensures forall n :: n in AttributeFields(fs) ==> !StartsWith(n, "Shape_") && !StartsWith(n, "OBJECTID")
  {
    AttributeFieldsMembers(fs);
  }

  // ---------------------------------------------------------------- header

  function Prefixed(p: string, fields: seq<string>): (cells: ReportRow)
    ensures |cells| == |fields|
    ensures forall k :: 0 <= k < |fields| ==> cells[k] == Str(p + fields[k])
  {
    seq(|fields|, k requires 0 <= k < |fields| => Str(p + fields[k]))
  }

  const FixedColumns: ReportRow :=
    [Str("Overlap_ID"), Str("Source_MDB"), Str("Parcel_Layer"), Str("Parcel1_ID"), Str("Parcel2_ID"), Str("Overlap_Area_SQM")]

  /** Lines 200-203. */
  function Header(fields: seq<string>): ReportRow
  {
    FixedColumns + Prefixed("Parcel1_", fields) + Prefixed("Parcel2_", fields)
  }

  /** Six fixed columns, then Parcel1_f for every field, then Parcel2_f. */
  lemma HeaderLayout(fields: seq<string>)
    ensures |Header(fields)| == 6 + 2 * |fields|
    ensures forall k :: 0 <= k < |fields| ==>
      Header(fields)[6 + k] == Str("Parcel1_" + fields[k]) && Header(fields)[6 + |fields| + k] == Str("Parcel2_" + fields[k])
  {
    var h := Header(fields);
    forall k | 0 <= k < |fields|
      ensures h[6 + k] == Str("Parcel1_" + fields[k]) && h[6 + |fields| + k] == Str("Parcel2_" + fields[k])
    {
      assert h[6 + k] == Prefixed("Parcel1_", fields)[k];
      assert h[6 + |fields| + k] == Prefixed("Parcel2_", fields)[k];
    }
  }

  // ---------------------------------------------------------- parcel data

  /** A cursor tuple's attribute part, `row[1:]`. */
  function Attrs(rec: Record, fields: seq<string>): (vs: seq<Value>)
    ensures |vs| == |fields|
    ensures forall k :: 0 <= k < |fields| ==> vs[k] == Get(rec, fields[k])
  {
    seq(|fields|, k requires 0 <= k < |fields| => Get(rec, fields[k]))
  }

  /** The attributes of the record with object id `o`: the copy Parcel1
      numbers its records 1, 2, ... in cursor order. */
  function AttrsOfOid(recs: seq<Record>, fields: seq<string>, o: int): seq<Value>
    requires 1 <= o <= |recs|
  {
    Attrs(recs[o - 1], fields)
  }

  /** Lines 181-188: each object id's attributes. */
  function ParcelData(recs: seq<Record>, fields: seq<string>): map<int, seq<Value>>
  {
    map o | 1 <= o <= |recs| :: AttrsOfOid(recs, fields, o)
  }

  method ReadParcelData(recs: seq<Record>, fields: seq<string>) returns (parcelData: map<int, seq<Value>>)
    ensures parcelData == ParcelData(recs, fields)
  {
    parcelData := map[];
    var k := 0;
    while k < |recs|
      invariant 0 <= k <= |recs|
      invariant parcelData == map o | 1 <= o <= k :: AttrsOfOid(recs, fields, o)
    {
      parcelData := parcelData[k + 1 := Attrs(recs[k], fields)];
      k := k + 1;
    }
  }

  // ----------------------------------------------------- the correlation

  /** One exported error: the two parcels' object ids and the overlap area. */
  datatype TopoError = TopoError(origin: int, dest: int, area: real)

  /** Line 211: a triple is used when it joins two different known parcels. */
  predicate Correlated(e: TopoError, data: map<int, seq<Value>>)
  {
    e.origin != e.dest && e.origin in data && e.dest in data
  }

  /** `parcel_data.get(oid, [None] * len(fields))`. */
  function AttrsOf(data: map<int, seq<Value>>, oid: int, width: nat): seq<Value>
  {
    if oid in data then data[oid] else seq(width, _ => Null)
  }

  /** Lines 219-224: the row written as overlap number `n`. */
  function OverlapRow(n: nat, source: string, layer: string, e: TopoError, width: nat, data: map<int, seq<Value>>): ReportRow
  {
    [Int(n), Str(source), Str(layer), Int(e.origin), Int(e.dest), Real(e.area)]
      + AttrsOf(data, e.origin, width) + AttrsOf(data, e.dest, width)
  }

  /** The rows of lines 207-225 for the triples `errs`, numbered from 1. */
  function CorrelateRows(errs: seq<TopoError>, source: string, layer: string, width: nat, data: map<int, seq<Value>>): seq<ReportRow>
  {
    if |errs| == 0 then []
    else
      var rows := CorrelateRows(errs[..|errs| - 1], source, layer, width, data);
      var e := errs[|errs| - 1];
      rows + (if Correlated(e, data) then [OverlapRow(|rows| + 1, source, layer, e, width, data)] else [])
  }

  /** The triples kept, in cursor order. */
  function Kept(errs: seq<TopoError>, data: map<int, seq<Value>>): seq<TopoError>
  {
    if |errs| == 0 then []
    else Kept(errs[..|errs| - 1], data) + (if Correlated(errs[|errs| - 1], data) then [errs[|errs| - 1]] else [])
  }

  /** Self-pairs and unknown ids are dropped; every other triple is kept. */
  lemma {:induction false} KeptMembers(errs: seq<TopoError>, data: map<int, seq<Value>>)
    ensures forall e :: e in Kept(errs, data) <==> e in errs && Correlated(e, data)
  {
    if |errs| > 0 {
      KeptMembers(errs[..|errs| - 1], data);
      assert errs == errs[..|errs| - 1] + [errs[|errs| - 1]];
    }
  }

  /** The reference layout: the kept triples numbered 1..n. */
  function Numbered(kept: seq<TopoError>, source: string, layer: string, width: nat, data: map<int, seq<Value>>): (rows: seq<ReportRow>)
    ensures |rows| == |kept|
    ensures forall k :: 0 <= k < |kept| ==> rows[k] == OverlapRow(k + 1, source, layer, kept[k], width, data)
  {
    seq(|kept|, k requires 0 <= k < |kept| => OverlapRow(k + 1, source, layer, kept[k], width, data))
  }

  /** Row k is the (k+1)th kept triple, numbered k + 1: the numbers run
      1..n without gaps and there is one row per kept triple. */
  lemma {:induction false} CorrelateIsNumbered(errs: seq<TopoError>, source: string, layer: string, width: nat, data: map<int, seq<Value>>)
    ensures CorrelateRows(errs, source, layer, width, data) == Numbered(Kept(errs, data), source, layer, width, data)
  {
    if |errs| > 0 {
      CorrelateIsNumbered(errs[..|errs| - 1], source, layer, width, data);
    }
  }

  /** The written rows are numbered 1..n in order, and each joins two
      different known parcels of the triple it came from. */
  lemma OverlapIds(errs: seq<TopoError>, source: string, layer: string, width: nat, data: map<int, seq<Value>>)
    ensures |CorrelateRows(errs, source, layer, width, data)| == |Kept(errs, data)|
    ensures forall k :: 0 <= k < |Kept(errs, data)| ==> (Kept(errs, data)[k] in errs && Correlated(Kept(errs, data)[k], data)
      && CorrelateRows(errs, source, layer, width, data)[k] == OverlapRow(k + 1, source, layer, Kept(errs, data)[k], width, data))
  {
    CorrelateIsNumbered(errs, source, layer, width, data);
    KeptMembers(errs, data);
    var kept := Kept(errs, data);
    forall k | 0 <= k < |kept| ensures Correlated(kept[k], data) {
      assert kept[k] in kept;
    }
  }

  /** With every parcel's attributes as wide as the field list, every row is
      as wide as the header. */
  lemma RowsMatchHeader(errs: seq<TopoError>, source: string, layer: string, recs: seq<Record>, fields: seq<string>)
    ensures forall r :: r in CorrelateRows(errs, source, layer, |fields|, ParcelData(recs, fields)) ==> |r| == |Header(fields)|
  {
    var data := ParcelData(recs, fields);
    CorrelateIsNumbered(errs, source, layer, |fields|, data);
    HeaderLayout(fields);
  }

  /** Lines 207-225: the rows and `overlap_count`. */
  method WriteOverlaps(errs: seq<TopoError>, source: string, layer: string, width: nat, parcelData: map<int, seq<Value>>)
    returns (rows: seq<ReportRow>, overlapCount: nat)
    ensures rows == CorrelateRows(errs, source, layer, width, parcelData)
    ensures overlapCount == |rows|
  {
    rows := [];
    overlapCount := 0;
    var k := 0;
    while k < |errs|
      invariant 0 <= k <= |errs|
      invariant rows == CorrelateRows(errs[..k], source, layer, width, parcelData)
      invariant overlapCount == |rows|
    {
      assert errs[..k + 1][..k] == errs[..k] && errs[..k + 1][k] == errs[k];
      var e := errs[k];
      if e.origin != e.dest && e.origin in parcelData && e.dest in parcelData {
        var attrs1 := AttrsOf(parcelData, e.origin, width);
        var attrs2 := AttrsOf(parcelData, e.dest, width);
        rows := rows + [[Int(overlapCount + 1), Str(source), Str(layer), Int(e.origin), Int(e.dest), Real(e.area)] + attrs1 + attrs2];
        overlapCount := overlapCount + 1;
      }
      k := k + 1;
    }
    assert errs[..k] == errs;
  }

  // --------------------------------------------------------------- one MDB

  /** The first class of `classes` named `name`. */
  function FindClass(classes: seq<FeatureClass>, name: string): (r: Option<FeatureClass>)
    ensures r.Some? ==> r.value in classes && r.value.name == name
    ensures r.None? ==> forall fc :: fc in classes ==> fc.name != name
  {
    if |classes| == 0 then None
    else if classes[0].name == name then Some(classes[0])
    else FindClass(classes[1..], name)
  }

  /** `arcpy.ListFeatureClasses()` at the root of a container. */
  function RootNames(c: Container): (names: seq<string>)
    ensures |names| == |c.rootClasses|
    ensures forall k :: 0 <= k < |names| ==> names[k] == c.rootClasses[k].name
  {
    seq(|c.rootClasses|, k requires 0 <= k < |c.rootClasses| => c.rootClasses[k].name)
  }

  /** What the validator is configured with: the layer it looks for, the
      tolerance handed to the engine, the output folder and the
      keep-topology switch. */
  datatype Settings = Settings(layer: string, tolerance: real, outputFolder: string, keep: bool)

  /** What one MDB comes to (lines 268-303): skipped for want of the layer
      (or because the engine cannot list the container, which raises inside
      the loop and is caught); no report because preparing or validating the
      topology failed; or a report with its overlap count. */
  datatype MdbStep =
    | Skipped
    | NotChecked
    | Checked(csv: string, shp: string, table: seq<ReportRow>, count: nat)

  /** The root class line 80 copies into Cadastre is always the one named
      "Parcel", whatever the layer name. */
  function Step(mdb: string, cfg: Settings, db: Db, topo: map<(string, real), seq<TopoError>>): MdbStep
  {
    if mdb !in db || cfg.layer !in RootNames(db[mdb]) then Skipped
    else match FindClass(db[mdb].rootClasses, DefaultLayer)
      case None => NotChecked
      case Some(parcel) =>
        if (mdb, cfg.tolerance) !in topo then NotChecked
        else
          var fields := AttributeFields(parcel.fields);
          var rows := CorrelateRows(topo[(mdb, cfg.tolerance)], Basename(mdb), cfg.layer, |fields|, ParcelData(parcel.records, fields));
          Checked(CsvPath(cfg.outputFolder, mdb), ShpPath(cfg.outputFolder, mdb), [Header(fields)] + rows, |rows|)
  }

  /** The staging datasets alive after one MDB: preparing the topology
      (re)creates Cadastre; only a run that reaches the outputs deletes it,
      and only when the topology is not to be kept. */
  function CadastreAfter(live: set<string>, mdb: string, step: MdbStep, keep: bool): set<string>
  {
    match step
    case Skipped => live
    case NotChecked => live + {Cadastre(mdb)}
    case Checked(_, _, _, _) => if keep then live + {Cadastre(mdb)} else live - {Cadastre(mdb)}
  }

  /** An MDB is looked at only when its root classes include the configured
      layer; it is checked only when, in addition, a root class is named
      "Parcel" and the engine built the topology. The table's columns are
      those of the "Parcel" class, whatever the layer. */
  lemma StepNeedsLayerAndParcel(mdb: string, cfg: Settings, db: Db, topo: map<(string, real), seq<TopoError>>)
    ensures !Step(mdb, cfg, db, topo).Skipped? <==>
      mdb in db && exists k :: 0 <= k < |db[mdb].rootClasses| && db[mdb].rootClasses[k].name == cfg.layer
    ensures Step(mdb, cfg, db, topo).Checked? <==>
      !Step(mdb, cfg, db, topo).Skipped? && (exists fc :: fc in db[mdb].rootClasses && fc.name == DefaultLayer)
      && (mdb, cfg.tolerance) in topo
    ensures Step(mdb, cfg, db, topo).Checked? ==>
      var parcel := FindClass(db[mdb].rootClasses, DefaultLayer).value;
      parcel in db[mdb].rootClasses && parcel.name == DefaultLayer
      && Step(mdb, cfg, db, topo).table[0] == Header(AttributeFields(parcel.fields))
  {
    if mdb in db {
      var names := RootNames(db[mdb]);
      if cfg.layer in names {
        var k :| 0 <= k < |names| && names[k] == cfg.layer;
        assert db[mdb].rootClasses[k].name == cfg.layer;
      }
    }
  }

  /** A checked MDB's table is its header and one row per overlap. */
  lemma CheckedTable(mdb: string, cfg: Settings, db: Db, topo: map<(string, real), seq<TopoError>>)
    requires Step(mdb, cfg, db, topo).Checked?
    ensures var s := Step(mdb, cfg, db, topo);
      |s.table| == s.count + 1 && s.table[0][0] == Str("Overlap_ID")
  {
  }

  // ---------------------------------------------------------------- the run

  /** A report kept in the summary: the paths and the table of one MDB with
      at least one overlap. */
  datatype Report = Report(csv: string, shp: string, table: seq<ReportRow>, count: nat)

  /** `total_overlaps` and `reports`. */
  datatype Tally = Tally(total: nat, reports: seq<Report>)

  /** The outcome of every MDB, in the order they were found. */
  function Steps(mdbs: seq<string>, cfg: Settings, db: Db, topo: map<(string, real), seq<TopoError>>): (steps: seq<MdbStep>)
    ensures |steps| == |mdbs|
    ensures forall k :: 0 <= k < |mdbs| ==> steps[k] == Step(mdbs[k], cfg, db, topo)
  {
    seq(|mdbs|, k requires 0 <= k < |mdbs| => Step(mdbs[k], cfg, db, topo))
  }

  /** `total_overlaps` and `reports` after the given steps: every checked
      MDB adds its count, and one with at least one overlap is reported. */
  function Sweep(steps: seq<MdbStep>): Tally
  {
    if |steps| == 0 then Tally(0, []) else Add(Sweep(steps[..|steps| - 1]), steps[|steps| - 1])
  }

  /** One turn of the loop of lines 267-303 on the two accumulators. */
  function Add(t: Tally, step: MdbStep): Tally
  {
    match step
    case Checked(csv, shp, table, count) =>
      Tally(t.total + count, t.reports + (if count > 0 then [Report(csv, shp, table, count)] else []))
    case _ => t
  }

  lemma SweepAdvance(steps: seq<MdbStep>, i: nat)
    requires i < |steps|
    ensures Sweep(steps[..i + 1]) == Add(Sweep(steps[..i]), steps[i])
  {
    assert steps[..i + 1][..i] == steps[..i];
  }

  lemma LiveAdvance(live: set<string>, mdbs: seq<string>, steps: seq<MdbStep>, keep: bool, i: nat)
    requires |steps| == |mdbs| && i < |mdbs|
    ensures LiveAfter(live, mdbs[..i + 1], steps[..i + 1], keep)
      == CadastreAfter(LiveAfter(live, mdbs[..i], steps[..i], keep), mdbs[i], steps[i], keep)
  {
    assert mdbs[..i + 1][..i] == mdbs[..i] && steps[..i + 1][..i] == steps[..i];
  }

  /** The staging datasets alive after the given MDBs went through. */
  function LiveAfter(live: set<string>, mdbs: seq<string>, steps: seq<MdbStep>, keep: bool): set<string>
    requires |steps| == |mdbs|
  {
    if |mdbs| == 0 then live
    else
      var n := |mdbs| - 1;
      CadastreAfter(LiveAfter(live, mdbs[..n], steps[..n], keep), mdbs[n], steps[n], keep)
  }

  function SumCounts(rs: seq<Report>): nat
  {
    if |rs| == 0 then 0 else SumCounts(rs[..|rs| - 1]) + rs[|rs| - 1].count
  }

  lemma SumCountsAppend(rs: seq<Report>, r: Report)
    ensures SumCounts(rs + [r]) == SumCounts(rs) + r.count
  {
    assert (rs + [r])[..|rs|] == rs;
  }

  /** The total is the sum of the reported counts (an MDB with no overlap
      adds 0), and only MDBs with at least one overlap are reported. */
  lemma {:induction false} TotalIsSumOfReports(steps: seq<MdbStep>)
    ensures Sweep(steps).total == SumCounts(Sweep(steps).reports)
    ensures forall r :: r in Sweep(steps).reports ==> r.count > 0
  {
    if |steps| > 0 {
      TotalIsSumOfReports(steps[..|steps| - 1]);
      var t := Sweep(steps[..|steps| - 1]);
      match steps[|steps| - 1]
      case Checked(csv, shp, table, count) =>
        if count > 0 {
          SumCountsAppend(t.reports, Report(csv, shp, table, count));
        } else {
          assert t.reports + [] == t.reports;
        }
      case _ =>
    }
  }

  /** A report is kept iff some MDB was checked with that outcome and a
      positive count. */
  lemma {:induction false} ReportsMembers(steps: seq<MdbStep>)
    ensures forall r :: r in Sweep(steps).reports <==>
      r.count > 0 && Checked(r.csv, r.shp, r.table, r.count) in steps
  {
    if |steps| > 0 {
      var front := steps[..|steps| - 1];
      ReportsMembers(front);
      assert steps == front + [steps[|steps| - 1]];
    }
  }

  /** A path `Join` can split again: not empty, no trailing separator. */
  predicate PlainPath(p: string)
  {
    p != "" && !IsSep(p[|p| - 1])
  }

  /** Every path `_find_mdb_files` returns ends in a letter. */
  lemma MdbPathIsPlain(p: string)
    requires EndsWith(Lower(p), ".mdb")
    ensures PlainPath(p)
  {
    var l := Lower(p);
    assert l[|l| - 4..][3] == 'b';
  }

  lemma CadastreDistinct(a: string, b: string)
    requires PlainPath(a) && PlainPath(b) && a != b
    ensures Cadastre(a) != Cadastre(b)
  {
    if |a| == |b| {
      assert Cadastre(a)[..|a|] == a;
      assert Cadastre(b)[..|b|] == b;
    } else {
      assert |Cadastre(a)| != |Cadastre(b)|;
    }
  }

  /** Later MDBs do not touch an earlier MDB's Cadastre. */
  lemma {:induction false} LiveAfterOthers(live: set<string>, mdbs: seq<string>, steps: seq<MdbStep>, keep: bool, k: nat)
    requires |steps| == |mdbs| && k < |mdbs|
    requires forall a, b :: 0 <= a < b < |mdbs| ==> mdbs[a] != mdbs[b]
    requires forall m :: m in mdbs ==> PlainPath(m)
    ensures (Cadastre(mdbs[k]) in LiveAfter(live, mdbs, steps, keep)) ==
      (Cadastre(mdbs[k]) in LiveAfter(live, mdbs[..k + 1], steps[..k + 1], keep))
  {
    var n := |mdbs| - 1;
    if n > k {
      assert mdbs[..n][k] == mdbs[k] && mdbs[..n][..k + 1] == mdbs[..k + 1] && steps[..n][..k + 1] == steps[..k + 1];
      LiveAfterOthers(live, mdbs[..n], steps[..n], keep, k);
      assert mdbs[n] in mdbs && mdbs[k] in mdbs;
      CadastreDistinct(mdbs[k], mdbs[n]);
    } else {
      assert mdbs[..k + 1] == mdbs && steps[..k + 1] == steps;
    }
  }

  /** After the run, the Cadastre dataset of an MDB whose outputs were
      generated exists iff the topology is kept. */
  lemma KeepTopologySwitch(live: set<string>, mdbs: seq<string>, steps: seq<MdbStep>, keep: bool, k: nat)
    requires |steps| == |mdbs| && k < |mdbs| && steps[k].Checked?
    requires forall a, b :: 0 <= a < b < |mdbs| ==> mdbs[a] != mdbs[b]
    requires forall m :: m in mdbs ==> PlainPath(m)
    ensures Cadastre(mdbs[k]) in LiveAfter(live, mdbs, steps, keep) <==> keep
  {
    LiveAfterOthers(live, mdbs, steps, keep, k);
    assert mdbs[..k + 1][k] == mdbs[k] && steps[..k + 1][k] == steps[k];
  }

  /** When preparing or validating the topology fails, the Cadastre dataset
      stays behind whatever the keep-topology switch says. */
  lemma FailedTopologyLeavesCadastre(live: set<string>, mdbs: seq<string>, steps: seq<MdbStep>, keep: bool, k: nat)
    requires |steps| == |mdbs| && k < |mdbs| && steps[k].NotChecked?
    requires forall a, b :: 0 <= a < b < |mdbs| ==> mdbs[a] != mdbs[b]
    requires forall m :: m in mdbs ==> PlainPath(m)
    ensures Cadastre(mdbs[k]) in LiveAfter(live, mdbs, steps, keep)
  {
    LiveAfterOthers(live, mdbs, steps, keep, k);
    assert mdbs[..k + 1][k] == mdbs[k] && steps[..k + 1][k] == steps[k];
  }

  /** How `run_validation` ends: a ValueError, or the summary's figures
      (MDBs processed, overlaps found, reports kept). */
  datatype TopologyRun = Stopped(reason: Reason) | Done(processed: nat, tally: Tally)

  function Run(folder: string, tree: Option<Dir>, cfg: Settings, db: Db, topo: map<(string, real), seq<TopoError>>): TopologyRun
  {
    if folder == "" then Stopped(FolderNotSet)
    else
      var mdbs := MdbFiles(folder, tree, []);
      if |mdbs| == 0 then Stopped(NoMdbFiles) else Done(|mdbs|, Sweep(Steps(mdbs, cfg, db, topo)))
  }

  class ParcelOverlapValidator {
    var folderPath: string
    var parcelLayerName: string
    var outputFolder: string
    var clusterTolerance: Tolerance
    var keepTopology: bool

    constructor ()
      ensures folderPath == "" && parcelLayerName == DefaultLayer && outputFolder == ""
      ensures clusterTolerance == DefaultTolerance && !keepTopology
    {
      folderPath := "";
      parcelLayerName := DefaultLayer;
      outputFolder := "";
      clusterTolerance := DefaultTolerance;
      keepTopology := false;
    }

    function Config(): Settings
      reads this
    {
      Settings(parcelLayerName, EffectiveTolerance(clusterTolerance), outputFolder, keepTopology)
    }

    /** Lines 22-25; an empty `outputFolder` stands for None. */
    method SetParameters(folderPath: string, parcelLayerName: string, outputFolder: string)
      modifies this
      ensures this.folderPath == folderPath && this.parcelLayerName == parcelLayerName
      ensures this.outputFolder == if outputFolder != "" then outputFolder else Join(folderPath, "Overlap_Reports")
      ensures clusterTolerance == old(clusterTolerance) && keepTopology == old(keepTopology)
    {
      this.folderPath := folderPath;
      this.parcelLayerName := parcelLayerName;
      this.outputFolder := if outputFolder != "" then outputFolder else Join(folderPath, "Overlap_Reports");
    }

    /** Setting the folder also resets the layer and the output folder. */
    method SetFolderPath(folderPath: string)
      modifies this
      ensures this.folderPath == folderPath && parcelLayerName == DefaultLayer
      ensures outputFolder == Join(folderPath, "Overlap_Reports")
      ensures clusterTolerance == old(clusterTolerance) && keepTopology == old(keepTopology)
    {
      SetParameters(folderPath, DefaultLayer, "");
    }

    /** Lines 43-50: every .mdb file anywhere below the folder, with no
        exclusion. */
    method FindMdbFiles(tree: Option<Dir>) returns (mdbFiles: seq<string>)
      ensures mdbFiles == MdbFiles(folderPath, tree, [])
      ensures tree.Some? ==> mdbFiles == Flat(folderPath, tree.value, [])
      ensures forall p :: p in mdbFiles ==> EndsWith(Lower(p), ".mdb") && PlainPath(p)
    {
      mdbFiles := Utils.FindMdbFiles(folderPath, tree, []);
      if tree.Some? {
        PruningIsFlatFilter(folderPath, tree.value, []);
      }
      forall p | p in mdbFiles ensures PlainPath(p) {
        MdbPathIsPlain(p);
      }
    }

    /** Lines 60-124 for an MDB holding the layer: Cadastre is recreated,
        then the export of the topology errors is located. */
    method CreateTopology(mdb: string, c: Container, topo: map<(string, real), seq<TopoError>>, scratch: Scratch)
      returns (errorFc: Option<string>)
      modifies scratch
      ensures errorFc == if FindClass(c.rootClasses, DefaultLayer).Some? && (mdb, EffectiveTolerance(clusterTolerance)) in topo
        then Some(ErrorPath(mdb)) else None
      ensures scratch.live == old(scratch.live) + {Cadastre(mdb)}
    {
      var cadastreDataset := Cadastre(mdb);
      scratch.Delete(cadastreDataset);
      scratch.Create(cadastreDataset);
      var parcel := FindClass(c.rootClasses, DefaultLayer);
      if parcel.None? {
        return None;
      }
      var clusterTolerance := EffectiveTolerance(this.clusterTolerance);
      if (mdb, clusterTolerance) !in topo {
        return None;
      }
      return Some(ErrorPath(mdb));
    }

    /** Lines 135-239 once the errors are exported. */
    method GenerateOutputs(mdb: string, parcel: FeatureClass, errs: seq<TopoError>, scratch: Scratch)
      returns (csvPath: string, shpPath: string, table: seq<ReportRow>, overlapCount: nat)
      modifies scratch
      ensures var fields := AttributeFields(parcel.fields);
        var rows := CorrelateRows(errs, Basename(mdb), parcelLayerName, |fields|, ParcelData(parcel.records, fields));
        csvPath == CsvPath(outputFolder, mdb) && shpPath == ShpPath(outputFolder, mdb)
        && table == [Header(fields)] + rows && overlapCount == |rows|
      ensures scratch.live == if keepTopology then old(scratch.live) else old(scratch.live) - {Cadastre(mdb)}
    {
      csvPath := CsvPath(outputFolder, mdb);
      shpPath := ShpPath(outputFolder, mdb);
      var fields := AttributeFields(parcel.fields);
      var parcelData := ReadParcelData(parcel.records, fields);
      var rows;
      rows, overlapCount := WriteOverlaps(errs, Basename(mdb), parcelLayerName, |fields|, parcelData);
      table := [Header(fields)] + rows;
      if !keepTopology {
        scratch.Delete(Cadastre(mdb));
      }
    }

    /** The body of the loop of lines 267-303. */
    method ProcessMdb(mdb: string, db: Db, topo: map<(string, real), seq<TopoError>>, scratch: Scratch) returns (step: MdbStep)
      modifies scratch
      ensures step == Step(mdb, Config(), db, topo)
      ensures scratch.live == CadastreAfter(old(scratch.live), mdb, step, keepTopology)
    {
      if mdb !in db {
        return Skipped;
      }
      var featureClasses := RootNames(db[mdb]);
      if parcelLayerName !in featureClasses {
        return Skipped;
      }
      var errorFc := CreateTopology(mdb, db[mdb], topo, scratch);
      if errorFc.None? {
        return NotChecked;
      }
      var parcel := FindClass(db[mdb].rootClasses, DefaultLayer).value;
      var errs := topo[(mdb, EffectiveTolerance(clusterTolerance))];
      var csvPath, shpPath, table, overlapCount := GenerateOutputs(mdb, parcel, errs, scratch);
      return Checked(csvPath, shpPath, table, overlapCount);
    }

    /** The loop of lines 267-303 over the MDBs found. */
    method ProcessAll(mdbFiles: seq<string>, db: Db, topo: map<(string, real), seq<TopoError>>, scratch: Scratch)
      returns (totalOverlaps: nat, reports: seq<Report>)
      modifies scratch
      ensures Tally(totalOverlaps, reports) == Sweep(Steps(mdbFiles, Config(), db, topo))
      ensures scratch.live == LiveAfter(old(scratch.live), mdbFiles, Steps(mdbFiles, Config(), db, topo), keepTopology)
    {
      ghost var steps := Steps(mdbFiles, Config(), db, topo);
      totalOverlaps, reports := 0, [];
      var i := 0;
      while i < |mdbFiles|
        invariant 0 <= i <= |mdbFiles|
        invariant Sweep(steps[..i]) == Tally(totalOverlaps, reports)
        invariant scratch.live == LiveAfter(old(scratch.live), mdbFiles[..i], steps[..i], keepTopology)
      {
        ghost var before := scratch.live;
        var step := ProcessMdb(mdbFiles[i], db, topo, scratch);
        assert step == steps[i];
        SweepAdvance(steps, i);
        LiveAdvance(old(scratch.live), mdbFiles, steps, keepTopology, i);
        assert before == LiveAfter(old(scratch.live), mdbFiles[..i], steps[..i], keepTopology);
        totalOverlaps, reports := Accumulate(totalOverlaps, reports, step);
        i := i + 1;
      }
      assert mdbFiles[..i] == mdbFiles && steps[..i] == steps;
    }

    /** Lines 285-290: a checked MDB adds its count, and is listed when it
        has at least one overlap. */
    static method Accumulate(totalOverlaps: nat, reports: seq<Report>, step: MdbStep)
      returns (totalOverlaps': nat, reports': seq<Report>)
      ensures Tally(totalOverlaps', reports') == Add(Tally(totalOverlaps, reports), step)
    {
      totalOverlaps', reports' := totalOverlaps, reports;
      if step.Checked? {
        totalOverlaps' := totalOverlaps + step.count;
        if step.count > 0 {
          reports' := reports + [Report(step.csv, step.shp, step.table, step.count)];
        }
      }
    }

    /** Lines 246-303 without the summary file: the figures it reports. */
    method RunValidation(tree: Option<Dir>, db: Db, topo: map<(string, real), seq<TopoError>>, scratch: Scratch)
      returns (run: TopologyRun)
      modifies scratch
      ensures run == Run(folderPath, tree, Config(), db, topo)
      ensures var mdbs := MdbFiles(folderPath, tree, []);
        scratch.live == if run.Done? then LiveAfter(old(scratch.live), mdbs, Steps(mdbs, Config(), db, topo), keepTopology)
        else old(scratch.live)
    {
      if folderPath == "" {
        return Stopped(FolderNotSet);
      }
      var mdbFiles := FindMdbFiles(tree);
      if |mdbFiles| == 0 {
        return Stopped(NoMdbFiles);
      }
      var totalOverlaps, reports := ProcessAll(mdbFiles, db, topo, scratch);
      return Done(|mdbFiles|, Tally(totalOverlaps, reports));
    }
  }
}
