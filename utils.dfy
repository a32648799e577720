/** The helpers every validator starts from: finding the .mdb containers below
    a folder while pruning excluded folders, and resolving feature classes by
    name inside one container. */
module Utils {
  import opened Values
  import opened Engine

  /** A directory as `os.walk` lists it: file names and sub-directories, in
      listing order. */
  datatype Dir = Dir(files: seq<string>, subdirs: seq<Sub>)

  datatype Sub = Sub(name: string, dir: Dir)

  /** The default `exception` argument of `find_mdb_files`. */
  const DefaultExclusions: seq<string> := ["merged"]

  /** `any(x in path.lower() for x in exception)`: some exclusion string
      occurs in the lower-cased path. */
  predicate Excluded(path: string, exception: seq<string>)
  {
    |exception| > 0 && (Contains(Lower(path), exception[0]) || Excluded(path, exception[1..]))
  }

  predicate IsMdbName(name: string)
  {
    EndsWith(Lower(name), ".mdb")
  }

  /** The files of one directory that are reported: an .mdb name (any case)
      whose joined path is not excluded. */
  function Hits(root: string, files: seq<string>, exception: seq<string>): seq<string>
  {
    if |files| == 0 then []
    else
      var f := files[|files| - 1];
      var p := Join(root, f);
      Hits(root, files[..|files| - 1], exception) + (if IsMdbName(f) && !Excluded(p, exception) then [p] else [])
  }

  /** What `find_mdb_files` collects below `root`, in `os.walk` top-down order:
      nothing when the root itself is excluded, else the directory's own hits,
      then each sub-directory that survives pruning. */
  function Walk(root: string, d: Dir, exception: seq<string>): seq<string>
    decreases d, |d.subdirs| + 1
  {
    if Excluded(root, exception) then []
    else Hits(root, d.files, exception) + WalkFrom(root, d, 0, exception)
  }

  function WalkFrom(root: string, d: Dir, i: nat, exception: seq<string>): seq<string>
    requires i <= |d.subdirs|
    decreases d, |d.subdirs| - i
  {
    if i == |d.subdirs| then []
    else
      var p := Join(root, d.subdirs[i].name);
      (if Excluded(p, exception) then [] else Walk(p, d.subdirs[i].dir, exception))
        + WalkFrom(root, d, i + 1, exception)
  }

  /** The reference definition without pruning: every .mdb file anywhere in
      the tree whose own full path is not excluded. */
  function Flat(root: string, d: Dir, exception: seq<string>): seq<string>
    decreases d, |d.subdirs| + 1
  {
    Hits(root, d.files, exception) + FlatFrom(root, d, 0, exception)
  }

  function FlatFrom(root: string, d: Dir, i: nat, exception: seq<string>): seq<string>
    requires i <= |d.subdirs|
    decreases d, |d.subdirs| - i
  {
    if i == |d.subdirs| then []
    else Flat(Join(root, d.subdirs[i].name), d.subdirs[i].dir, exception) + FlatFrom(root, d, i + 1, exception)
  }

  /** The file half of one `os.walk` step: the .mdb files of one directory
      that are not excluded, in listing order. */
  method ScanFiles(root: string, files: seq<string>, exception: seq<string>) returns (found: seq<string>)
    ensures found == Hits(root, files, exception)
  {
    found := [];
    var j := 0;
    while j < |files|
      invariant 0 <= j <= |files|
      invariant found == Hits(root, files[..j], exception)
    {
      var p := Join(root, files[j]);
      if IsMdbName(files[j]) && !Excluded(p, exception) {
        found := found + [p];
      }
      assert files[..j + 1][..j] == files[..j];
      j := j + 1;
    }
    assert files[..j] == files;
  }

  /** One step of `os.walk` and its recursion into the sub-directories kept
      after pruning. */
  method WalkDir(root: string, d: Dir, exception: seq<string>) returns (found: seq<string>)
    ensures found == Walk(root, d, exception)
    decreases d, 2
  {
    if Excluded(root, exception) {
      return [];
    }
    var here := ScanFiles(root, d.files, exception);
    var below := WalkSubdirs(root, d, exception);
    found := here + below;
  }

  /** The sub-directories of one walk step, in listing order. */
  method WalkSubdirs(root: string, d: Dir, exception: seq<string>) returns (found: seq<string>)
    ensures found == WalkFrom(root, d, 0, exception)
    decreases d, 1
  {
    found := [];
    var i := 0;
    while i < |d.subdirs|
      invariant 0 <= i <= |d.subdirs|
      invariant WalkFrom(root, d, 0, exception) == found + WalkFrom(root, d, i, exception)
    {
      var next := WalkSub(root, d, i, exception);
      found := found + next;
      i := i + 1;
    }
  }

  /** Line 12's pruning of one sub-directory, then the walk below it. */
  method WalkSub(root: string, d: Dir, i: nat, exception: seq<string>) returns (found: seq<string>)
    requires i < |d.subdirs|
    ensures found + WalkFrom(root, d, i + 1, exception) == WalkFrom(root, d, i, exception)
    decreases d, 0
  {
    var p := Join(root, d.subdirs[i].name);
    if Excluded(p, exception) {
      found := [];
    } else {
      found := WalkDir(p, d.subdirs[i].dir, exception);
    }
  }

  /** `find_mdb_files(directory, exception)`; `tree` is what lies at
      `directory`, None when it is not a directory (`os.walk` yields
      nothing). */
  method FindMdbFiles(directory: string, tree: Option<Dir>, exception: seq<string>) returns (mdbFiles: seq<string>)
    ensures mdbFiles == (if tree.Some? then Walk(directory, tree.value, exception) else [])
    ensures forall p :: p in mdbFiles ==> EndsWith(Lower(p), ".mdb") && !Excluded(p, exception)
    ensures Excluded(directory, exception) ==> mdbFiles == []
  {
    if tree.None? {
      return [];
    }
    mdbFiles := WalkDir(directory, tree.value, exception);
    WalkSound(directory, tree.value, exception);
  }

  function MdbFiles(directory: string, tree: Option<Dir>, exception: seq<string>): seq<string>
  {
    if tree.Some? then Walk(directory, tree.value, exception) else []
  }

  /** A path below an excluded folder is excluded too. */
  lemma {:induction false} ExcludedJoin(root: string, name: string, exception: seq<string>)
    requires Excluded(root, exception)
    ensures Excluded(Join(root, name), exception)
    decreases |exception|
  {
    var p := Join(root, name);
    if Contains(Lower(root), exception[0]) {
      assert p == root + p[|root|..];
      LowerAppend(root, p[|root|..]);
      ContainsAppend(Lower(root), Lower(p[|root|..]), exception[0]);
    } else {
      ExcludedJoin(root, name, exception[1..]);
    }
  }

  lemma MdbSuffix(root: string, f: string)
    requires IsMdbName(f)
    ensures EndsWith(Lower(Join(root, f)), ".mdb")
  {
    var p := Join(root, f);
    var pre := p[..|p| - |f|];
    assert p == pre + f;
    LowerAppend(pre, f);
    assert Lower(p)[|Lower(p)| - 4..] == Lower(f)[|f| - 4..];
  }

  lemma {:induction false} HitsSound(root: string, files: seq<string>, exception: seq<string>)
    ensures forall p :: p in Hits(root, files, exception) ==> EndsWith(Lower(p), ".mdb") && !Excluded(p, exception)
    decreases |files|
  {
    if |files| > 0 {
      HitsSound(root, files[..|files| - 1], exception);
      var f := files[|files| - 1];
      if IsMdbName(f) {
        MdbSuffix(root, f);
      }
    }
  }

  lemma {:induction false} HitsUnderExcluded(root: string, files: seq<string>, exception: seq<string>)
    requires Excluded(root, exception)
    ensures Hits(root, files, exception) == []
    decreases |files|
  {
    if |files| > 0 {
      HitsUnderExcluded(root, files[..|files| - 1], exception);
      ExcludedJoin(root, files[|files| - 1], exception);
    }
  }

  /** Every path found names an .mdb file, ignoring case, and contains no
      exclusion string once lower-cased. */
  lemma {:induction false} WalkSound(root: string, d: Dir, exception: seq<string>)
    ensures forall p :: p in Walk(root, d, exception) ==> EndsWith(Lower(p), ".mdb") && !Excluded(p, exception)
    decreases d, |d.subdirs| + 1
  {
    if !Excluded(root, exception) {
      HitsSound(root, d.files, exception);
      WalkFromSound(root, d, 0, exception);
    }
  }

  lemma {:induction false} WalkFromSound(root: string, d: Dir, i: nat, exception: seq<string>)
    requires i <= |d.subdirs|
    ensures forall p :: p in WalkFrom(root, d, i, exception) ==> EndsWith(Lower(p), ".mdb") && !Excluded(p, exception)
    decreases d, |d.subdirs| - i
  {
    if i < |d.subdirs| {
      WalkSound(Join(root, d.subdirs[i].name), d.subdirs[i].dir, exception);
      WalkFromSound(root, d, i + 1, exception);
    }
  }

  lemma {:induction false} FlatUnderExcluded(root: string, d: Dir, exception: seq<string>)
    requires Excluded(root, exception)
    ensures Flat(root, d, exception) == []
    decreases d, |d.subdirs| + 1
  {
    HitsUnderExcluded(root, d.files, exception);
    FlatFromUnderExcluded(root, d, 0, exception);
  }

  lemma {:induction false} FlatFromUnderExcluded(root: string, d: Dir, i: nat, exception: seq<string>)
    requires Excluded(root, exception) && i <= |d.subdirs|
    ensures FlatFrom(root, d, i, exception) == []
    decreases d, |d.subdirs| - i
  {
    if i < |d.subdirs| {
      ExcludedJoin(root, d.subdirs[i].name, exception);
      FlatUnderExcluded(Join(root, d.subdirs[i].name), d.subdirs[i].dir, exception);
      FlatFromUnderExcluded(root, d, i + 1, exception);
    }
  }

  /** Pruning loses nothing and keeps the order: the walk that never enters an
      excluded folder finds exactly the .mdb files whose full path is not
      excluded, because a folder's path is a prefix of every path below it. */
  lemma {:induction false} PruningIsFlatFilter(root: string, d: Dir, exception: seq<string>)
    ensures Walk(root, d, exception) == Flat(root, d, exception)
    decreases d, |d.subdirs| + 1
  {
    if Excluded(root, exception) {
      FlatUnderExcluded(root, d, exception);
    } else {
      PruningIsFlatFilterFrom(root, d, 0, exception);
    }
  }

  lemma {:induction false} PruningIsFlatFilterFrom(root: string, d: Dir, i: nat, exception: seq<string>)
    requires i <= |d.subdirs|
    ensures WalkFrom(root, d, i, exception) == FlatFrom(root, d, i, exception)
    decreases d, |d.subdirs| - i
  {
    if i < |d.subdirs| {
      var p := Join(root, d.subdirs[i].name);
      if Excluded(p, exception) {
        FlatUnderExcluded(p, d.subdirs[i].dir, exception);
      } else {
        PruningIsFlatFilter(p, d.subdirs[i].dir, exception);
      }
      PruningIsFlatFilterFrom(root, d, i + 1, exception);
    }
  }

  /** Only the path is lower-cased: an exclusion string holding an upper-case
      letter never matches. */
  lemma UpperCaseNeverMatches(path: string, x: string, c: char)
    requires c in x && IsUpper(c)
    ensures !Contains(Lower(path), x)
  {
    if Contains(Lower(path), x) {
      ContainsWitness(Lower(path), x, c);
      LowerHasNoUpper(path, c);
    }
  }

  lemma {:induction false} HitsSameExclusion(root: string, files: seq<string>, e1: seq<string>, e2: seq<string>)
    requires forall p :: Excluded(p, e1) <==> Excluded(p, e2)
    ensures Hits(root, files, e1) == Hits(root, files, e2)
    decreases |files|
  {
    if |files| > 0 {
      HitsSameExclusion(root, files[..|files| - 1], e1, e2);
    }
  }

  /** The walk depends on the exclusion list only through which paths it
      excludes. */
  lemma {:induction false} WalkSameExclusion(root: string, d: Dir, e1: seq<string>, e2: seq<string>)
    requires forall p :: Excluded(p, e1) <==> Excluded(p, e2)
    ensures Walk(root, d, e1) == Walk(root, d, e2)
    decreases d, |d.subdirs| + 1
  {
    HitsSameExclusion(root, d.files, e1, e2);
    WalkFromSameExclusion(root, d, 0, e1, e2);
  }

  lemma {:induction false} WalkFromSameExclusion(root: string, d: Dir, i: nat, e1: seq<string>, e2: seq<string>)
    requires forall p :: Excluded(p, e1) <==> Excluded(p, e2)
    requires i <= |d.subdirs|
    ensures WalkFrom(root, d, i, e1) == WalkFrom(root, d, i, e2)
    decreases d, |d.subdirs| - i
  {
    if i < |d.subdirs| {
      WalkSameExclusion(Join(root, d.subdirs[i].name), d.subdirs[i].dir, e1, e2);
      WalkFromSameExclusion(root, d, i + 1, e1, e2);
    }
  }

  lemma {:induction false} ExcludedAppendUpper(p: string, exception: seq<string>, x: string, c: char)
    requires c in x && IsUpper(c)
    ensures Excluded(p, exception + [x]) <==> Excluded(p, exception)
    decreases |exception|
  {
    if exception == [] {
      UpperCaseNeverMatches(p, x, c);
      assert [] + [x] == [x] && [x][1..] == [];
    } else {
      assert (exception + [x])[1..] == exception[1..] + [x];
      ExcludedAppendUpper(p, exception[1..], x, c);
    }
  }

  /** Adding an exclusion string with an upper-case letter changes nothing. */
  lemma UpperCaseExclusionInert(root: string, d: Dir, exception: seq<string>, x: string, c: char)
    requires c in x && IsUpper(c)
    ensures Walk(root, d, exception + [x]) == Walk(root, d, exception)
  {
    forall p ensures Excluded(p, exception + [x]) <==> Excluded(p, exception) {
      ExcludedAppendUpper(p, exception, x, c);
    }
    WalkSameExclusion(root, d, exception + [x], exception);
  }

  // ------------------------------------------------ get_feature_classes

  /** `arcpy.ListDatasets() or [""]`: the datasets, or the container root as
      one unnamed dataset when there are none. */
  function Spaces(c: Container): seq<Dataset>
  {
    if |c.datasets| == 0 then [Dataset("", c.rootClasses)] else c.datasets
  }

  /** `os.path.join(mdb, dataset, fc)`, or `os.path.join(mdb, fc)` when the
      dataset is "". */
  function FullPath(mdb: string, dataset: string, fc: string): string
  {
    if dataset != "" then Join(Join(mdb, dataset), fc) else Join(mdb, fc)
  }

  function LocatedIn(mdb: string, dataset: string, fc: FeatureClass): Located
  {
    Located(fc.name, FullPath(mdb, dataset, fc.name), fc)
  }

  /** The classes of one dataset whose name is in `names`, in listing order. */
  function Matches(mdb: string, dataset: string, classes: seq<FeatureClass>, names: seq<string>): seq<Located>
  {
    if |classes| == 0 then []
    else
      var fc := classes[|classes| - 1];
      Matches(mdb, dataset, classes[..|classes| - 1], names) + (if fc.name in names then [LocatedIn(mdb, dataset, fc)] else [])
  }

  /** The matches of every dataset, dataset by dataset. */
  function Resolve(mdb: string, spaces: seq<Dataset>, names: seq<string>): seq<Located>
  {
    if |spaces| == 0 then []
    else
      var ds := spaces[|spaces| - 1];
      Resolve(mdb, spaces[..|spaces| - 1], names) + Matches(mdb, ds.name, ds.classes, names)
  }

  /** `get_feature_classes(mdb, names)`; None when the engine cannot open
      the container (the call raises). */
  function FeatureClassesOf(mdb: string, names: seq<string>, db: Db): Option<seq<Located>>
  {
    if mdb in db then Some(Resolve(mdb, Spaces(db[mdb]), names)) else None
  }

  method GetFeatureClasses(mdbPath: string, fcNames: seq<string>, db: Db) returns (result: Option<seq<Located>>)
    ensures result == FeatureClassesOf(mdbPath, fcNames, db)
  {
    if mdbPath !in db {
      return None;
    }
    var datasets := Spaces(db[mdbPath]);
    var featureClasses: seq<Located> := [];
    var i := 0;
    while i < |datasets|
      invariant 0 <= i <= |datasets|
      invariant featureClasses == Resolve(mdbPath, datasets[..i], fcNames)
    {
      var ds := datasets[i];
      var j := 0;
      while j < |ds.classes|
        invariant 0 <= j <= |ds.classes|
        invariant featureClasses == Resolve(mdbPath, datasets[..i], fcNames) + Matches(mdbPath, ds.name, ds.classes[..j], fcNames)
      {
        var fc := ds.classes[j];
        if fc.name in fcNames {
          featureClasses := featureClasses + [Located(fc.name, FullPath(mdbPath, ds.name, fc.name), fc)];
        }
        assert ds.classes[..j + 1][..j] == ds.classes[..j];
        j := j + 1;
      }
      assert ds.classes[..j] == ds.classes;
      assert datasets[..i + 1][..i] == datasets[..i];
      i := i + 1;
    }
    assert datasets[..i] == datasets;
    return Some(featureClasses);
  }

  /** `loc` is one of `classes`, asked for by name, located in `dataset`. */
  predicate Listed(mdb: string, dataset: string, classes: seq<FeatureClass>, names: seq<string>, loc: Located)
  {
    exists j :: 0 <= j < |classes| && classes[j].name in names && loc == LocatedIn(mdb, dataset, classes[j])
  }

  lemma {:induction false} MatchesSound(mdb: string, dataset: string, classes: seq<FeatureClass>, names: seq<string>, loc: Located)
    requires loc in Matches(mdb, dataset, classes, names)
    ensures Listed(mdb, dataset, classes, names, loc)
    decreases |classes|
  {
    var front, fc := classes[..|classes| - 1], classes[|classes| - 1];
    if loc in Matches(mdb, dataset, front, names) {
      MatchesSound(mdb, dataset, front, names, loc);
      var j :| 0 <= j < |front| && front[j].name in names && loc == LocatedIn(mdb, dataset, front[j]);
      assert classes[j] == front[j];
    } else {
      assert fc.name in names && loc == LocatedIn(mdb, dataset, fc);
      assert classes[|classes| - 1] == fc;
    }
  }

  lemma {:induction false} MatchesComplete(mdb: string, dataset: string, classes: seq<FeatureClass>, names: seq<string>, j: nat)
    requires j < |classes| && classes[j].name in names
    ensures LocatedIn(mdb, dataset, classes[j]) in Matches(mdb, dataset, classes, names)
    decreases |classes|
  {
    var front := classes[..|classes| - 1];
    if j < |front| {
      assert front[j] == classes[j];
      MatchesComplete(mdb, dataset, front, names, j);
    }
  }

  lemma {:induction false} ResolveSound(mdb: string, spaces: seq<Dataset>, names: seq<string>, loc: Located)
    requires loc in Resolve(mdb, spaces, names)
    ensures exists i :: 0 <= i < |spaces| && Listed(mdb, spaces[i].name, spaces[i].classes, names, loc)
    decreases |spaces|
  {
    var front, ds := spaces[..|spaces| - 1], spaces[|spaces| - 1];
    if loc in Resolve(mdb, front, names) {
      ResolveSound(mdb, front, names, loc);
      var i :| 0 <= i < |front| && Listed(mdb, front[i].name, front[i].classes, names, loc);
      assert spaces[i] == front[i];
    } else {
      MatchesSound(mdb, ds.name, ds.classes, names, loc);
      assert spaces[|spaces| - 1] == ds;
    }
  }

  lemma {:induction false} ResolveComplete(mdb: string, spaces: seq<Dataset>, names: seq<string>, i: nat, loc: Located)
    requires i < |spaces| && Listed(mdb, spaces[i].name, spaces[i].classes, names, loc)
    ensures loc in Resolve(mdb, spaces, names)
    decreases |spaces|
  {
    var front, ds := spaces[..|spaces| - 1], spaces[|spaces| - 1];
    if i < |front| {
      assert front[i] == spaces[i];
      ResolveComplete(mdb, front, names, i, loc);
    } else {
      var j :| 0 <= j < |ds.classes| && ds.classes[j].name in names && loc == LocatedIn(mdb, ds.name, ds.classes[j]);
      MatchesComplete(mdb, ds.name, ds.classes, names, j);
      assert loc in Matches(mdb, ds.name, ds.classes, names);
    }
  }

  /** A feature class is returned exactly when its name is, case-sensitively,
      one of `names`; it comes with its dataset's path, or the container's
      when searched as the unnamed dataset. */
  lemma ResolveMembers(mdb: string, spaces: seq<Dataset>, names: seq<string>)
    ensures forall loc :: loc in Resolve(mdb, spaces, names) <==>
      exists i :: 0 <= i < |spaces| && Listed(mdb, spaces[i].name, spaces[i].classes, names, loc)
  {
    forall loc | loc in Resolve(mdb, spaces, names)
      ensures exists i :: 0 <= i < |spaces| && Listed(mdb, spaces[i].name, spaces[i].classes, names, loc)
    {
      ResolveSound(mdb, spaces, names, loc);
    }
    forall loc, i | 0 <= i < |spaces| && Listed(mdb, spaces[i].name, spaces[i].classes, names, loc)
      ensures loc in Resolve(mdb, spaces, names)
    {
      ResolveComplete(mdb, spaces, names, i, loc);
    }
  }

  /** What a caller may rely on for each pair it gets back: the name is one
      it asked for and names the feature class itself. */
  lemma Resolved(mdb: string, names: seq<string>, db: Db, loc: Located)
    requires FeatureClassesOf(mdb, names, db).Some? && loc in FeatureClassesOf(mdb, names, db).value
    ensures loc.name in names && loc.fc.name == loc.name
  {
    ResolveMembers(mdb, Spaces(db[mdb]), names);
  }

  /** When the container has datasets, a class at its root is never
      returned: every result lies in one of the datasets and carries that
      dataset's path. */
  lemma RootHiddenWhenDatasets(mdb: string, names: seq<string>, db: Db)
    requires mdb in db && db[mdb].datasets != []
    ensures forall loc :: loc in FeatureClassesOf(mdb, names, db).value ==>
      exists ds :: ds in db[mdb].datasets && loc.fc in ds.classes && loc.path == FullPath(mdb, ds.name, loc.name)
  {
    var spaces := db[mdb].datasets;
    ResolveMembers(mdb, spaces, names);
    forall loc | loc in FeatureClassesOf(mdb, names, db).value
      ensures exists ds :: ds in spaces && loc.fc in ds.classes && loc.path == FullPath(mdb, ds.name, loc.name)
    {
      var i :| 0 <= i < |spaces| && Listed(mdb, spaces[i].name, spaces[i].classes, names, loc);
      var j :| 0 <= j < |spaces[i].classes| && spaces[i].classes[j].name in names
        && loc == LocatedIn(mdb, spaces[i].name, spaces[i].classes[j]);
      assert spaces[i] in spaces && spaces[i].classes[j] in spaces[i].classes;
    }
  }
}
