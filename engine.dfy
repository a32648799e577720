/** What the geoprocessing engine hands the validators, taken as plain data:
    containers (.mdb files) with their datasets and feature classes, the
    records a search cursor yields, the grouped counts of the frequency tool,
    Windows path handling, and the set of temporary outputs that are alive. */
module Engine {
  import opened Values

  datatype ShapeType = Polygon | Polyline | Point | Multipoint | Multipatch

  datatype FieldType = Oid | Geometry | SmallInteger | Integer | Double | Text | Date | OtherType

  datatype Field = Field(name: string, kind: FieldType)

  /** One row of a feature class, by field name. */
  type Record = map<string, Value>

  /** A feature class as `Describe`, `ListFields` and a search cursor see it. */
  datatype FeatureClass = FeatureClass(name: string, shape: ShapeType, fields: seq<Field>, records: seq<Record>)

  /** A feature dataset inside a container; its name is never empty. */
  datatype Dataset = Dataset(name: string, classes: seq<FeatureClass>)

  /** An .mdb container: its feature datasets and the classes at its root. */
  datatype Container = Container(datasets: seq<Dataset>, rootClasses: seq<FeatureClass>)

  /** The containers the engine can open, by path; any other path fails. */
  type Db = map<string, Container>

  /** A feature class found in a container, as `(fc_name, full_path)`. */
  datatype Located = Located(name: string, path: string, fc: FeatureClass)

  /** A report (CSV) row; header rows hold text cells. */
  type ReportRow = seq<Value>

  function FieldNames(fc: FeatureClass): (names: seq<string>)
    ensures |names| == |fc.fields|
  {
    seq(|fc.fields|, k requires 0 <= k < |fc.fields| => fc.fields[k].name)
  }

  /** A cursor over `names` opens only when every name is a field. */
  predicate HasFields(fc: FeatureClass, names: seq<string>)
  {
    forall n :: n in names ==> n in FieldNames(fc)
  }

  /** The value of field `f` in a record; NULL when the record lacks it. */
  function Get(rec: Record, f: string): Value
  {
    if f in rec then rec[f] else Null
  }

  /** The `i`th cell of a cursor tuple. */
  function Col(t: seq<Value>, i: nat): Value
  {
    if i < |t| then t[i] else Null
  }

  // ---------------------------------------------------------------- paths

  predicate IsSep(c: char) { c == '\\' || c == '/' }

  predicate NoSep(s: string) { forall k :: 0 <= k < |s| ==> !IsSep(s[k]) }

  /** `os.path.join(a, b)` for a relative `b` on Windows. */
  function Join(a: string, b: string): string
  {
    if a == "" || IsSep(a[|a| - 1]) then a + b else a + "\\" + b
  }

  /** The index just after the last separator of `p` (0 when there is none,
      see TailStartIsLastSep). */
  function TailStart(p: string): (i: nat)
    ensures i <= |p|
    decreases |p|
  {
    if |p| == 0 then 0
    else if IsSep(p[|p| - 1]) then |p|
    else TailStart(p[..|p| - 1])
  }

  /** No separator follows TailStart(p), and the character before it is one. */
  lemma {:induction false} TailStartIsLastSep(p: string)
    ensures NoSep(p[TailStart(p)..])
    ensures 0 < TailStart(p) ==> IsSep(p[TailStart(p) - 1])
    decreases |p|
  {
    if |p| > 0 && !IsSep(p[|p| - 1]) {
      var i := TailStart(p[..|p| - 1]);
      TailStartIsLastSep(p[..|p| - 1]);
      assert p[i..] == p[..|p| - 1][i..] + [p[|p| - 1]];
    }
  }

  function TrimSeps(s: string): (t: string)
    ensures |t| <= |s| && t == s[..|t|]
    decreases |s|
  {
    if |s| > 0 && IsSep(s[|s| - 1]) then TrimSeps(s[..|s| - 1]) else s
  }

  /** `os.path.basename(p)`. */
  function Basename(p: string): string
  {
    p[TailStart(p)..]
  }

  /** `os.path.dirname(p)`: the head before the last separator, without its
      trailing separators unless it consists of separators only. */
  function Dirname(p: string): string
    decreases |p|
  {
    if |p| == 0 then ""
    else if !IsSep(p[|p| - 1]) then Dirname(p[..|p| - 1])
    else
      var t := TrimSeps(p);
      if t == "" then p else t
  }

  lemma {:induction false} DirnamePastSep(x: string, b: string)
    requires |x| > 0 && IsSep(x[|x| - 1]) && NoSep(b)
    ensures Dirname(x + b) == Dirname(x)
    decreases |b|
  {
    if b == [] {
      assert x + b == x;
    } else {
      var p := x + b;
      assert p[..|p| - 1] == x + b[..|b| - 1];
      DirnamePastSep(x, b[..|b| - 1]);
    }
  }

  lemma {:induction false} TailStartPastSep(x: string, b: string)
    requires |x| > 0 && IsSep(x[|x| - 1]) && NoSep(b)
    ensures TailStart(x + b) == |x|
    decreases |b|
  {
    if b == [] {
      assert x + b == x;
    } else {
      var p := x + b;
      assert p[..|p| - 1] == x + b[..|b| - 1];
      TailStartPastSep(x, b[..|b| - 1]);
    }
  }

  /** Joining a separator-free name onto a directory and splitting it again
      gives back the directory and the name. */
  lemma SplitJoin(a: string, b: string)
    requires a != "" && !IsSep(a[|a| - 1]) && NoSep(b)
    ensures Dirname(Join(a, b)) == a && Basename(Join(a, b)) == b
  {
    var x := a + "\\";
    assert Join(a, b) == x + b;
    TailStartPastSep(x, b);
    DirnamePastSep(x, b);
    assert x[..|x| - 1] == a;
    assert TrimSeps(a) == a;
    assert TrimSeps(x) == a;
    assert (x + b)[|x|..] == b;
  }

  // ------------------------------------------------------ frequency tool

  /** One output row of the frequency tool: a key tuple and its count. */
  datatype Group = Group(key: seq<Value>, frequency: nat)

  predicate DistinctKeys(gs: seq<Group>)
  {
    forall i, j :: 0 <= i < j < |gs| ==> gs[i].key != gs[j].key
  }

  /** Counts one more record with key `k`. */
  function Tally(gs: seq<Group>, k: seq<Value>): seq<Group>
    decreases |gs|
  {
    if |gs| == 0 then [Group(k, 1)]
    else if gs[0].key == k then [Group(k, gs[0].frequency + 1)] + gs[1..]
    else [gs[0]] + Tally(gs[1..], k)
  }

  /** The frequency tool over a sequence of key tuples: one group per distinct
      key, in order of first occurrence. */
  function Frequency(keys: seq<seq<Value>>): seq<Group>
  {
    if |keys| == 0 then [] else Tally(Frequency(keys[..|keys| - 1]), keys[|keys| - 1])
  }

  /** The frequency reported for key `x`, or 0 when no group has it. */
  function FreqOf(gs: seq<Group>, x: seq<Value>): nat
  {
    if |gs| == 0 then 0 else if gs[0].key == x then gs[0].frequency else FreqOf(gs[1..], x)
  }

  function KeyOf(rec: Record, fields: seq<string>): seq<Value>
  {
    seq(|fields|, i requires 0 <= i < |fields| => Get(rec, fields[i]))
  }

  function KeysOf(recs: seq<Record>, fields: seq<string>): (keys: seq<seq<Value>>)
    ensures |keys| == |recs|
  {
    seq(|recs|, i requires 0 <= i < |recs| => KeyOf(recs[i], fields))
  }

  /** `Frequency_analysis(fc, out, fields)`; None when a field is missing (the
      tool raises). */
  function FrequencyAnalysis(fc: FeatureClass, fields: seq<string>): Option<seq<Group>>
  {
    if HasFields(fc, fields) then Some(Frequency(KeysOf(fc.records, fields))) else None
  }

  lemma {:induction false} FreqOfFound(gs: seq<Group>, g: Group)
    requires DistinctKeys(gs) && g in gs
    ensures FreqOf(gs, g.key) == g.frequency
    decreases |gs|
  {
    if gs[0] != g {
      assert gs[0].key != g.key by {
        var j :| 0 <= j < |gs| && gs[j] == g;
      }
      FreqOfFound(gs[1..], g);
    }
  }

  lemma {:induction false} FreqOfMissing(gs: seq<Group>, x: seq<Value>)
    requires forall g :: g in gs ==> g.key != x
    ensures FreqOf(gs, x) == 0
    decreases |gs|
  {
    if |gs| > 0 {
      FreqOfMissing(gs[1..], x);
    }
  }

  lemma DistinctTail(gs: seq<Group>)
    requires DistinctKeys(gs) && gs != []
    ensures DistinctKeys(gs[1..])
    ensures forall g :: g in gs[1..] ==> g.key != gs[0].key
  {
    var rest := gs[1..];
    forall i, j | 0 <= i < j < |rest| ensures rest[i].key != rest[j].key {
      assert rest[i] == gs[i + 1] && rest[j] == gs[j + 1];
    }
    forall g | g in rest ensures g.key != gs[0].key {
      var i :| 0 <= i < |rest| && rest[i] == g;
      assert gs[i + 1] == g;
    }
  }

  lemma {:induction false} TallyMembers(gs: seq<Group>, k: seq<Value>)
    requires DistinctKeys(gs)
    ensures forall g :: g in Tally(gs, k) ==>
      (g.key == k && g.frequency == FreqOf(gs, k) + 1) || (g.key != k && g in gs)
    decreases |gs|
  {
    if |gs| > 0 {
      DistinctTail(gs);
      if gs[0].key != k {
        TallyMembers(gs[1..], k);
      }
    }
  }

  lemma {:induction false} TallyKeeps(gs: seq<Group>, k: seq<Value>)
    ensures forall g :: g in gs && g.key != k ==> g in Tally(gs, k)
    ensures exists g :: g in Tally(gs, k) && g.key == k
    decreases |gs|
  {
    if gs == [] {
      assert Tally(gs, k)[0] in Tally(gs, k);
    } else if gs[0].key != k {
      TallyKeeps(gs[1..], k);
      var t := Tally(gs, k);
      assert t == [gs[0]] + Tally(gs[1..], k);
      forall g | g in gs && g.key != k ensures g in t {
        if g != gs[0] { assert g in gs[1..]; }
      }
      var w :| w in Tally(gs[1..], k) && w.key == k;
      assert w in t;
    } else {
      var t := Tally(gs, k);
      assert t[0].key == k && t[0] in t;
      forall g | g in gs && g.key != k ensures g in t {
        assert g in gs[1..];
      }
    }
  }

  lemma ConsDistinct(g: Group, rest: seq<Group>)
    requires DistinctKeys(rest) && forall h :: h in rest ==> h.key != g.key
    ensures DistinctKeys([g] + rest)
  {
    var t := [g] + rest;
    forall i, j | 0 <= i < j < |t| ensures t[i].key != t[j].key {
      assert t[j] == rest[j - 1] && t[j] in rest;
      if 0 < i {
        assert t[i] == rest[i - 1];
      }
    }
  }

  lemma {:induction false} TallyDistinct(gs: seq<Group>, k: seq<Value>)
    requires DistinctKeys(gs)
    ensures DistinctKeys(Tally(gs, k))
    decreases |gs|
  {
    if |gs| > 0 {
      DistinctTail(gs);
      if gs[0].key == k {
        ConsDistinct(Group(k, gs[0].frequency + 1), gs[1..]);
      } else {
        TallyDistinct(gs[1..], k);
        TallyMembers(gs[1..], k);
        ConsDistinct(gs[0], Tally(gs[1..], k));
      }
    }
  }

  /** What the frequency tool guarantees: key tuples are pairwise distinct,
      every group counts exactly the records carrying its key, and every
      record's key has a group. */
  lemma {:induction false} FrequencySound(keys: seq<seq<Value>>)
    ensures var gs := Frequency(keys);
      DistinctKeys(gs)
      && (forall g :: g in gs ==> g.frequency == multiset(keys)[g.key] && g.frequency >= 1)
      && (forall k :: k in keys ==> exists g :: g in gs && g.key == k)
    decreases |keys|
  {
    if |keys| > 0 {
      var front, k := keys[..|keys| - 1], keys[|keys| - 1];
      assert keys == front + [k];
      FrequencySound(front);
      var gs := Frequency(front);
      TallyMembers(gs, k);
      TallyKeeps(gs, k);
      TallyDistinct(gs, k);
      var t := Tally(gs, k);
      assert FreqOf(gs, k) == multiset(front)[k] by {
        if w :| w in gs && w.key == k {
          FreqOfFound(gs, w);
        } else {
          FreqOfMissing(gs, k);
          assert k !in front;
        }
      }
      forall g | g in t ensures g.frequency == multiset(keys)[g.key] && g.frequency >= 1 {
        if g.key == k {
        } else {
          assert g in gs;
        }
      }
      forall x | x in keys ensures exists g :: g in t && g.key == x {
        if x != k {
          assert x in front;
          var g :| g in gs && g.key == x;
          assert g in t;
        }
      }
    }
  }

  // -------------------------------------------------------- run outcomes

  /** The rows one step wrote and, when it raised, the error it raised. */
  datatype Pass = Pass(rows: seq<ReportRow>, failure: Option<string>)

  /** `first`, then `rest` unless `first` raised: the rows written before an
      exception stay written. */
  function Then(first: Pass, rest: Pass): (p: Pass)
    ensures first.failure.Some? ==> p == first
    ensures first.failure.None? ==> p.rows == first.rows + rest.rows && p.failure == rest.failure
  {
    if first.failure.Some? then first else Pass(first.rows + rest.rows, rest.failure)
  }

  lemma ThenAssoc(a: Pass, b: Pass, c: Pass)
    ensures Then(a, Then(b, c)) == Then(Then(a, b), c)
  {
    if a.failure.None? && b.failure.None? {
      assert a.rows + (b.rows + c.rows) == (a.rows + b.rows) + c.rows;
    }
  }

  /** Steps run one after another, stopping at the first that raised. */
  function Chain(ps: seq<Pass>): Pass
  {
    if |ps| == 0 then Pass([], None) else Then(ps[0], Chain(ps[1..]))
  }

  /** The rows of every step, in order. */
  function AllRows(ps: seq<Pass>): seq<ReportRow>
  {
    if |ps| == 0 then [] else ps[0].rows + AllRows(ps[1..])
  }

  /** One more step of a loop that accumulates `acc`: the `i`th step is run
      and folded into the accumulator. */
  lemma ChainStep(acc: Pass, ps: seq<Pass>, i: nat)
    requires acc.failure.None? && i < |ps|
    ensures Then(acc, Chain(ps[i..])) == Then(Then(acc, ps[i]), Chain(ps[i + 1..]))
  {
    assert ps[i..][1..] == ps[i + 1..];
  }

  /** When no step raises, every step's rows are written and nothing is
      raised. */
  lemma {:induction false} ChainClean(ps: seq<Pass>)
    requires forall i :: 0 <= i < |ps| ==> ps[i].failure.None?
    ensures Chain(ps) == Pass(AllRows(ps), None)
  {
    if |ps| > 0 {
      ChainClean(ps[1..]);
    }
  }

  /** An exception re-raised at step `k` ends the run with that exception:
      the rows of steps before it, and those step `k` wrote, stay written;
      no later step runs. */
  lemma {:induction false} ChainAborts(ps: seq<Pass>, k: nat)
    requires k < |ps| && ps[k].failure.Some?
    requires forall i :: 0 <= i < k ==> ps[i].failure.None?
    ensures Chain(ps) == Pass(AllRows(ps[..k]) + ps[k].rows, ps[k].failure)
  {
    if k > 0 {
      ChainAborts(ps[1..], k - 1);
      assert ps[1..][..k - 1] == ps[..k][1..];
    }
  }

  /** Every row written comes from one of the steps. */
  lemma {:induction false} ChainRows(ps: seq<Pass>, r: ReportRow)
    requires r in Chain(ps).rows
    ensures exists i :: 0 <= i < |ps| && r in ps[i].rows
  {
    if |ps| > 0 && r !in ps[0].rows {
      ChainRows(ps[1..], r);
      var i :| 0 <= i < |ps[1..]| && r in ps[1..][i].rows;
      assert ps[i + 1] == ps[1..][i];
    }
  }

  /** The rows of several independent steps (steps whose errors are
      caught), in order. */
  function Concat(parts: seq<seq<ReportRow>>): seq<ReportRow>
  {
    if |parts| == 0 then [] else parts[0] + Concat(parts[1..])
  }

  /** Every row comes from one of the parts. */
  lemma {:induction false} ConcatRows(parts: seq<seq<ReportRow>>, r: ReportRow)
    requires r in Concat(parts)
    ensures exists i :: 0 <= i < |parts| && r in parts[i]
  {
    if r !in parts[0] {
      ConcatRows(parts[1..], r);
      var i :| 0 <= i < |parts[1..]| && r in parts[1..][i];
      assert parts[i + 1] == parts[1..][i];
    }
  }

  lemma ConcatStep(parts: seq<seq<ReportRow>>, i: nat)
    requires i < |parts|
    ensures Concat(parts[i..]) == parts[i] + Concat(parts[i + 1..])
  {
    assert parts[i..][1..] == parts[i + 1..];
  }

  /** The loop step of a scan that appends each part in turn. */
  lemma ConcatAdvance(parts: seq<seq<ReportRow>>, i: nat, done: seq<ReportRow>, more: seq<ReportRow>)
    requires i < |parts| && more == parts[i]
    requires Concat(parts) == done + Concat(parts[i..])
    ensures Concat(parts) == (done + more) + Concat(parts[i + 1..])
  {
    ConcatStep(parts, i);
  }

  lemma {:induction false} ConcatAppend(a: seq<seq<ReportRow>>, b: seq<seq<ReportRow>>)
    ensures Concat(a + b) == Concat(a) + Concat(b)
  {
    if |a| == 0 {
      assert a + b == b;
    } else {
      assert (a + b)[1..] == a[1..] + b;
      ConcatAppend(a[1..], b);
    }
  }

  /** Step `i`'s rows sit between those of the steps before and after it. */
  lemma ConcatSplit(parts: seq<seq<ReportRow>>, i: nat)
    requires i < |parts|
    ensures Concat(parts) == Concat(parts[..i]) + parts[i] + Concat(parts[i + 1..])
  {
    assert parts == parts[..i] + parts[i..];
    ConcatAppend(parts[..i], parts[i..]);
    ConcatStep(parts, i);
  }

  /** Why a validator raised `ValueError` before touching its report. */
  datatype Reason =
    | FolderNotSet | NoMdbFiles | ScaleNotSet | InvalidScale
    | GridsheetNotSet | GridsheetNotFound | TooFewMdbFiles | TooFewFeatureClasses

  /** How `run_validation` ended: normally, with a `ValueError`, or with an
      engine error propagated out of it. */
  datatype Outcome = Ok | ValueError(reason: Reason) | Raised(error: string)

  /** An outcome and the report file's contents, None when the file was never
      opened. */
  datatype RunResult = RunResult(outcome: Outcome, report: Option<seq<ReportRow>>)

  /** The outcome of a sweep that ended in `p`: Ok, or the error it raised. */
  function OutcomeOf(p: Pass): Outcome
  {
    if p.failure.Some? then Raised(p.failure.value) else Ok
  }

  function CannotOpen(mdb: string): string { "cannot open " + mdb }

  function MissingField(path: string): string { "field missing in " + path }

  // ------------------------------------------------- temporary outputs

  /** The engine's temporary outputs (in-memory tables, intermediate feature
      classes, staging datasets) that currently exist. */
  class Scratch {
    var live: set<string>

    constructor ()
      ensures live == {}
    {
      live := {};
    }

    /** A tool writes output `name`. */
    method Create(name: string)
      modifies this
      ensures live == old(live) + {name}
    {
      live := live + {name};
    }

    /** `if arcpy.Exists(name): arcpy.Delete_management(name)`. */
    method Delete(name: string)
      modifies this
      ensures live == old(live) - {name}
    {
      live := live - {name};
    }
  }
}
