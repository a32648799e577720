/** `MDBValidatorApp` (mdb_validator/main.py) without its widgets: the list
    of validators, their selection flags, and the run that configures and
    runs the selected ones in order. A validator is seen only through the
    setters it offers and whether its `run_validation` raises. */
module MainApp {
  import opened Values

  /** One entry of the validator list: its name and which of the optional
      setters (`set_scale`, `set_gridsheet`) its class defines. */
  datatype Slot = Slot(name: string, hasScale: bool, hasGridsheet: bool)

  const Validators: seq<Slot> := [
    Slot("Duplicate Parcels", false, false),
    Slot("Small Areas", false, false),
    Slot("Invalid Sheet Numbers", true, false),
    Slot("Invalid Ward Numbers", false, false),
    Slot("Feature Overlaps", false, false),
    Slot("Segment Counts", false, false),
    Slot("Sheet Number Check", false, true)]

  /** The choices of the two read-only combo boxes and their defaults. */
  const Scales: seq<string> := ["500", "600", "1200", "1250", "2400", "2500", "4800"]
  const Gridsheets: seq<string> := ["Gridsheet_81.shp", "Gridsheet_84.shp", "Gridsheet_87.shp"]
  const DefaultScale: string := Scales[0]
  const DefaultGridsheet: string := Gridsheets[1]

  /** What the setters of one validator were last given. */
  datatype Setup = Setup(folder: Option<string>, scale: Option<string>, gridsheet: Option<string>)

  const Unset: Setup := Setup(None, None, None)

  /** Lines 162-172 for one validator: a selected one gets the folder, and
      the scale and the gridsheet when it has the setter for them. */
  function ConfigureOne(s: Setup, flag: int, slot: Slot, folder: string, scale: string, gridsheet: string): Setup
  {
    if flag != 1 then s
    else Setup(Some(folder),
               if slot.hasScale then Some(scale) else s.scale,
               if slot.hasGridsheet then Some(gridsheet) else s.gridsheet)
  }

  function Configured(setups: seq<Setup>, flags: seq<int>, folder: string, scale: string, gridsheet: string): (r: seq<Setup>)
    requires |setups| == |flags| == |Validators|
    ensures |r| == |setups|
    ensures forall i :: 0 <= i < |r| ==> r[i] == ConfigureOne(setups[i], flags[i], Validators[i], folder, scale, gridsheet)
  {
    seq(|setups|, i requires 0 <= i < |setups| => ConfigureOne(setups[i], flags[i], Validators[i], folder, scale, gridsheet))
  }

  /** An unselected validator is left as it was; a selected one is given
      the folder; only the sheet validators receive a scale or a gridsheet. */
  lemma ConfiguredOnlySelected(setups: seq<Setup>, flags: seq<int>, folder: string, scale: string, gridsheet: string, i: nat)
    requires |setups| == |flags| == |Validators| && i < |flags|
    ensures var r := Configured(setups, flags, folder, scale, gridsheet)[i];
      && (flags[i] != 1 ==> r == setups[i])
      && (flags[i] == 1 ==> r.folder == Some(folder))
      && (r.scale != setups[i].scale ==> Validators[i].name == "Invalid Sheet Numbers" && r.scale == Some(scale))
      && (r.gridsheet != setups[i].gridsheet ==> Validators[i].name == "Sheet Number Check" && r.gridsheet == Some(gridsheet))
  {
    assert Validators[i].hasScale ==> i == 2;
    assert Validators[i].hasGridsheet ==> i == 6;
  }

  /** `sum(var.get() for var in self.validator_vars)`. */
  function Selected(flags: seq<int>): int
  {
    if |flags| == 0 then 0 else Selected(flags[..|flags| - 1]) + flags[|flags| - 1]
  }

  /** The indices of the selected validators, in list order: the order in
      which lines 176-190 run them. */
  function RunOrder(flags: seq<int>): seq<nat>
  {
    if |flags| == 0 then []
    else RunOrder(flags[..|flags| - 1]) + (if flags[|flags| - 1] == 1 then [|flags| - 1] else [])
  }

  /** The selected validators whose run raised (each one an error box). */
  function Failures(flags: seq<int>, raises: seq<bool>): seq<nat>
    requires |raises| == |flags|
  {
    if |flags| == 0 then []
    else
      var n := |flags| - 1;
      Failures(flags[..n], raises[..n]) + (if flags[n] == 1 && raises[n] then [n] else [])
  }

  /** `success_count`: the selected validators whose run raised nothing. */
  function Successes(flags: seq<int>, raises: seq<bool>): nat
    requires |raises| == |flags|
  {
    if |flags| == 0 then 0
    else
      var n := |flags| - 1;
      Successes(flags[..n], raises[..n]) + (if flags[n] == 1 && !raises[n] then 1 else 0)
  }

  predicate Binary(flags: seq<int>)
  {
    forall i :: 0 <= i < |flags| ==> flags[i] == 0 || flags[i] == 1
  }

  /** A validator runs iff it is selected, and each runs once, in list
      order. */
  lemma {:induction false} RunOrderMembers(flags: seq<int>)
    ensures forall i :: i in RunOrder(flags) <==> 0 <= i < |flags| && flags[i] == 1
    ensures forall a, b :: 0 <= a < b < |RunOrder(flags)| ==> RunOrder(flags)[a] < RunOrder(flags)[b]
  {
    if |flags| > 0 {
      var n := |flags| - 1;
      RunOrderMembers(flags[..n]);
      assert forall i :: 0 <= i < n ==> flags[..n][i] == flags[i];
      var r := RunOrder(flags[..n]);
      assert forall a :: 0 <= a < |r| ==> r[a] in r;
    }
  }

  /** The failures are the selected validators that raise, in list order:
      a failure does not keep a later validator from running. */
  lemma {:induction false} FailuresMembers(flags: seq<int>, raises: seq<bool>)
    requires |raises| == |flags|
    ensures forall i :: i in Failures(flags, raises) <==> 0 <= i < |flags| && flags[i] == 1 && raises[i]
  {
    if |flags| > 0 {
      var n := |flags| - 1;
      FailuresMembers(flags[..n], raises[..n]);
      assert forall i :: 0 <= i < n ==> flags[..n][i] == flags[i] && raises[..n][i] == raises[i];
    }
  }

  /** Every validator that ran either succeeded or failed. */
  lemma {:induction false} SuccessesAndFailures(flags: seq<int>, raises: seq<bool>)
    requires |raises| == |flags|
    ensures Successes(flags, raises) + |Failures(flags, raises)| == |RunOrder(flags)|
  {
    if |flags| > 0 {
      var n := |flags| - 1;
      SuccessesAndFailures(flags[..n], raises[..n]);
    }
  }

  /** With 0/1 flags, the sum of the flags counts the selected validators,
      so the final status never reports more successes than selections,
      and reports all of them exactly when nothing raised. */
  lemma {:induction false} SelectedCountsRuns(flags: seq<int>, raises: seq<bool>)
    requires |raises| == |flags| && Binary(flags)
    ensures Selected(flags) == |RunOrder(flags)|
    ensures Successes(flags, raises) <= Selected(flags)
    ensures Successes(flags, raises) == Selected(flags) <==> |Failures(flags, raises)| == 0
  {
    SuccessesAndFailures(flags, raises);
    if |flags| > 0 {
      var n := |flags| - 1;
      assert flags[n] == 0 || flags[n] == 1;
      SelectedCountsRuns(flags[..n], raises[..n]);
    }
  }

  /** The status line the app leaves behind. */
  datatype Status =
    | Blank
    | SelectedAll
    | DeselectedAll
    | Completed(succeeded: nat, selected: int)

  /** How `run_validations` ends: one of the two error boxes before anything
      is configured, or the runs made (in order), the successes counted and
      the validators that raised. */
  datatype RunEnd =
    | NoFolder
    | InvalidFolder
    | Finished(ran: seq<nat>, successCount: nat, failed: seq<nat>)

  class App {
    var folderEntry: string
    var scale: string
    var gridsheet: string
    var flags: seq<int>
    var setups: seq<Setup>
    var status: Status

    /** One 0/1 flag and one setup per validator. */
    predicate Valid()
      reads this
    {
      |flags| == |Validators| && |setups| == |Validators| && Binary(flags)
    }

    /** Lines 23-31, 82-95 and 112-116: every validator starts selected,
        the combo boxes on their defaults. */
    constructor ()
      ensures Valid()
      ensures flags == seq(|Validators|, _ => 1) && setups == seq(|Validators|, _ => Unset)
      ensures folderEntry == "" && scale == DefaultScale && gridsheet == DefaultGridsheet && status == Blank
    {
      folderEntry := "";
      scale := DefaultScale;
      gridsheet := DefaultGridsheet;
      flags := seq(|Validators|, _ => 1);
      setups := seq(|Validators|, _ => Unset);
      status := Blank;
    }

    method SelectAll()
      requires Valid()
      modifies this
      ensures Valid() && flags == seq(|Validators|, _ => 1) && status == SelectedAll
      ensures setups == old(setups) && folderEntry == old(folderEntry)
      ensures scale == old(scale) && gridsheet == old(gridsheet)
    {
      var i := 0;
      while i < |flags|
        invariant 0 <= i <= |flags| == |Validators|
        invariant forall k :: 0 <= k < i ==> flags[k] == 1
        invariant forall k :: i <= k < |flags| ==> flags[k] == old(flags)[k]
        invariant setups == old(setups) && folderEntry == old(folderEntry)
        invariant scale == old(scale) && gridsheet == old(gridsheet)
      {
        flags := flags[i := 1];
        i := i + 1;
      }
      status := SelectedAll;
    }

    method SelectNone()
      requires Valid()
      modifies this
      ensures Valid() && flags == seq(|Validators|, _ => 0) && status == DeselectedAll
      ensures setups == old(setups) && folderEntry == old(folderEntry)
      ensures scale == old(scale) && gridsheet == old(gridsheet)
    {
      var i := 0;
      while i < |flags|
        invariant 0 <= i <= |flags| == |Validators|
        invariant forall k :: 0 <= k < i ==> flags[k] == 0
        invariant forall k :: i <= k < |flags| ==> flags[k] == old(flags)[k]
        invariant setups == old(setups) && folderEntry == old(folderEntry)
        invariant scale == old(scale) && gridsheet == old(gridsheet)
      {
        flags := flags[i := 0];
        i := i + 1;
      }
      status := DeselectedAll;
    }

    /** Lines 162-172. */
    method ConfigureSelected(folder: string)
      requires Valid()
      modifies this
      ensures Valid() && setups == Configured(old(setups), flags, folder, scale, gridsheet)
      ensures flags == old(flags) && folderEntry == old(folderEntry) && scale == old(scale)
      ensures gridsheet == old(gridsheet) && status == old(status)
    {
      var i := 0;
      while i < |Validators|
        invariant 0 <= i <= |Validators| && Valid()
        invariant forall k :: 0 <= k < i ==> setups[k] == ConfigureOne(old(setups)[k], flags[k], Validators[k], folder, scale, gridsheet)
        invariant forall k :: i <= k < |setups| ==> setups[k] == old(setups)[k]
        invariant flags == old(flags) && folderEntry == old(folderEntry) && scale == old(scale)
        invariant gridsheet == old(gridsheet) && status == old(status)
      {
        if flags[i] == 1 {
          var s := setups[i].(folder := Some(folder));
          if Validators[i].hasScale {
            s := s.(scale := Some(scale));
          }
          if Validators[i].hasGridsheet {
            s := s.(gridsheet := Some(gridsheet));
          }
          setups := setups[i := s];
        }
        i := i + 1;
      }
    }

    /** Lines 175-190: each selected validator runs in turn; one that raises
        is reported and the loop goes on. */
    method RunSelected(raises: seq<bool>) returns (ran: seq<nat>, successCount: nat, failed: seq<nat>)
      requires Valid() && |raises| == |Validators|
      ensures ran == RunOrder(flags) && successCount == Successes(flags, raises)
      ensures failed == Failures(flags, raises)
    {
      ran, successCount, failed := [], 0, [];
      var i := 0;
      while i < |Validators|
        invariant 0 <= i <= |Validators|
        invariant ran == RunOrder(flags[..i]) && successCount == Successes(flags[..i], raises[..i])
        invariant failed == Failures(flags[..i], raises[..i])
      {
        assert flags[..i + 1][..i] == flags[..i] && raises[..i + 1][..i] == raises[..i];
        if flags[i] == 1 {
          ran := ran + [i];
          if raises[i] {
            failed := failed + [i];
          } else {
            successCount := successCount + 1;
          }
        }
        i := i + 1;
      }
      assert flags[..i] == flags && raises[..i] == raises;
    }

    /** Lines 150-193; `dirs` are the folders `os.path.isdir` accepts and
        `raises[i]` says whether the i-th validator's run raises. */
    method RunValidations(dirs: set<string>, raises: seq<bool>) returns (end: RunEnd)
      requires Valid() && |raises| == |Validators|
      modifies this
      ensures Valid() && flags == old(flags) && folderEntry == old(folderEntry)
      ensures scale == old(scale) && gridsheet == old(gridsheet)
      ensures var folder := Strip(folderEntry);
        end == if folder == "" then NoFolder
          else if folder !in dirs then InvalidFolder
          else Finished(RunOrder(flags), Successes(flags, raises), Failures(flags, raises))
      ensures end.Finished? ==>
        setups == Configured(old(setups), flags, Strip(folderEntry), scale, gridsheet) &&
        status == Completed(end.successCount, Selected(flags))
      ensures !end.Finished? ==> setups == old(setups) && status == old(status)
    {
      var folder := Strip(folderEntry);
      if folder == "" {
        return NoFolder;
      }
      if folder !in dirs {
        return InvalidFolder;
      }
      ConfigureSelected(folder);
      var ran, successCount, failed := RunSelected(raises);
      assert ran == RunOrder(flags) && successCount == Successes(flags, raises) && failed == Failures(flags, raises);
      status := Completed(successCount, Selected(flags));
      end := Finished(ran, successCount, failed);
    }
  }

  /** A folder entry of blanks is rejected like an empty one. */
  lemma {:induction false} BlankFolderRejected(s: string)
    requires AllSpace(s)
    ensures Strip(s) == ""
    decreases |s|
  {
    if |s| > 0 {
      assert IsSpace(s[0]);
      BlankFolderRejected(s[1..]);
    }
  }
}
