# MDB validator suite, modelled in Dafny

The suite checks a folder of cadastral personal geodatabases (`.mdb` files)
for data-entry mistakes. Each validator walks the folder for `.mdb` files,
opens the Parcel, Construction or Segments feature classes inside each one,
and writes a CSV report of the suspicious records. The validators look for:

- duplicated parcel numbers;
- duplicated construction and segment keys;
- small areas;
- sheet and ward numbers that do not fit the map scale or the ward code;
- malformed parcel numbers;
- suspicious flag columns;
- segment counts;
- overlapping feature classes;
- overlapping parcels found through a topology.

A small Tkinter application configures and runs a selection of the
validators.

This project models each validator's logic in the source's own form:

- **Record filters and report rows** are functions, each with lemmas that
  characterise what gets written.
- **Cursor loops** are methods proved equal to prefix-recursive
  specification functions.
- **The validator objects** are classes. Their `run_validation` is proved
  to produce the outcome (normal end, `ValueError`, or a re-raised error)
  and the report that a run specification gives.
- **The geoprocessing engine** is plain data. The containers the engine can
  open are a map from path to container. Feature classes are their fields
  and records. The frequency tool and topology errors are inputs. The
  temporary outputs alive at any time are a set in a `Scratch` object.

The modules are:

- `Values`: Python 2 value semantics.
- `Engine`: engine data, path handling, the frequency tool, pass sequencing.
- `Utils`: `utils.py`.
- One module per validator file. `Overlaping` and `ParcelReport` hold the
  two stand-alone scripts.
- `Topology`: `topology_check.py`.
- `MainApp`: `main.py`.

## Model

| member | source | states |
|---|---|---|
| Values.RealNeverDecimal | mdb_validator/duplicate_const_and_segments.py:72 | a double never renders as a bare decimal such as "0", so `str(x) != "0"` holds for every double |
| Values.StrIsDecimal | mdb_validator/invalid_parcelnum.py:56-57 | `str(v)` equals the canonical decimal text of n exactly when v is the integer n or already that text |
| Values.NatToStrInjective | Overlaping.py:57 | distinct counters render as distinct decimal texts |
| Values.StripPadding | mdb_validator/suspicious_column.py:63 | `strip()` removes exactly the whitespace around text that neither starts nor ends with whitespace |
| Values.StripKeeps | mdb_validator/suspicious_column.py:63 | `strip()` only removes characters, never adds one |
| Values.NumbersPrintNumeric | mdb_validator/suspicious_column.py:63-64 | a number renders using only digits, '-' and '.' |
| Engine.TailStartIsLastSep | mdb_validator/overlaps.py:64 | the split point of a path lies just after its last separator: no separator follows it and the character before it is one |
| Engine.DirnamePastSep | mdb_validator/overlaps.py:64 | the parent folder of a path ending in a separator-free name is that of the path up to its last separator |
| Engine.SplitJoin | mdb_validator/overlaps.py:64-66 | `dirname` and `basename` of `join(a, b)` give back a and b for a plain directory and a separator-free name |
| Engine.FrequencySound | mdb_validator/duplicate_parcels.py:46-50 | the frequency tool yields pairwise distinct keys, each with the number of records carrying it (at least 1), and a group for every key present |
| Engine.ThenAssoc | mdb_validator/duplicate_parcels.py:33-59 | grouping of consecutive steps does not matter |
| Engine.ChainClean | mdb_validator/duplicate_parcels.py:33-59 | when no step raises, every step's rows are written and the run ends normally |
| Engine.ChainAborts | mdb_validator/duplicate_parcels.py:56-59 | a re-raised error at step k ends the run with that error, after the rows of steps 0..k |
| Engine.ChainRows | mdb_validator/duplicate_parcels.py:41-51 | every row written comes from one of the steps |
| Engine.ConcatSplit | mdb_validator/duplicate_const_and_segments.py:97-102 | with `except ... continue`, each step's rows sit between the rows of the steps before and after it |
| Engine.ConcatRows | mdb_validator/duplicate_const_and_segments.py:43-102 | every row of MDBs scanned one after another comes from one of them |
| Engine.ConcatAppend | mdb_validator/duplicate_const_and_segments.py:43-102 | the rows of two runs of steps concatenate |
| Engine.Scratch.Create | mdb_validator/overlaps.py:76 | the intersect output becomes live and nothing else changes |
| Engine.Scratch.Delete | mdb_validator/overlaps.py:91-92 | `Exists` then `Delete_management` removes exactly that output and nothing else |
| Utils.ScanFiles | mdb_validator/utils.py:13-16 | the files of one walk step that are reported: .mdb names in any case whose joined path is not excluded, in listing order |
| Utils.WalkDir | mdb_validator/utils.py:9-16 | one `os.walk` step and its recursion equal the walk specification: nothing under an excluded root, else the directory's hits, then each pruned sub-directory |
| Utils.WalkSubdirs | mdb_validator/utils.py:12 | the sub-directories are walked in listing order |
| Utils.WalkSub | mdb_validator/utils.py:12 | one sub-directory: pruned when its joined path is excluded, otherwise walked |
| Utils.FindMdbFiles | mdb_validator/utils.py:6-17 | the result is the top-down walk with pruning; every path ends in ".mdb" ignoring case and contains no exclusion string once lower-cased; an excluded folder yields nothing; a missing folder yields nothing |
| Utils.ExcludedJoin | mdb_validator/utils.py:10-12 | a path below an excluded folder is excluded too |
| Utils.WalkSound | mdb_validator/utils.py:14-16 | every path found names an .mdb file and is not excluded |
| Utils.PruningIsFlatFilter | mdb_validator/utils.py:10-16 | pruning loses nothing and keeps the order: the walk equals the flat list of every non-excluded .mdb file |
| Utils.UpperCaseNeverMatches | mdb_validator/utils.py:10 | only the path is lower-cased, so an exclusion string with an upper-case letter never matches |
| Utils.UpperCaseExclusionInert | mdb_validator/utils.py:10-15 | adding such an exclusion string changes nothing that is found |
| Utils.WalkSameExclusion | mdb_validator/utils.py:10-15 | the walk depends on the exclusion list only through which paths it excludes |
| Utils.GetFeatureClasses | mdb_validator/utils.py:20-33 | the result equals the resolution specification: the requested classes of every dataset in turn, or of the root as the one unnamed dataset when there are no datasets; None when the container cannot be opened |
| Utils.ResolveMembers | mdb_validator/utils.py:25-31 | a class is returned iff its name is, case-sensitively, one of the names, and it carries its own dataset's path |
| Utils.Resolved | mdb_validator/utils.py:28-31 | each pair returned names a requested class and is that class |
| Utils.RootHiddenWhenDatasets | mdb_validator/utils.py:25-28 | when a container has datasets, classes at its root are never returned |
| DuplicateParcels.ReadFrequencyTable | mdb_validator/duplicate_parcels.py:48-51 | the cursor loop writes exactly the rows of the duplicate-row specification, in table order |
| DuplicateParcels.DuplicateRowsMembers | mdb_validator/duplicate_parcels.py:50-51 | a row is written iff some group counts more than one record with a parcel number that is not a numeric zero |
| DuplicateParcels.DuplicateRowsDistinct | mdb_validator/duplicate_parcels.py:46-51 | no two rows of one class name the same parcel number |
| DuplicateParcels.DuplicateReportExact | mdb_validator/duplicate_parcels.py:46-51 | for one class, a row [path, v, n] is written exactly for each parcel number v carried by n > 1 records, 0 excepted |
| DuplicateParcels.ScanClass | mdb_validator/duplicate_parcels.py:41-54 | one class: non-polygon classes are skipped; a missing PARCELNO field raises; otherwise the duplicate rows |
| DuplicateParcels.ScanMdb | mdb_validator/duplicate_parcels.py:39-54 | one MDB: its Parcel classes in order, stopping at the first error; an MDB that cannot be opened raises |
| DuplicateParcels.ScanMdbs | mdb_validator/duplicate_parcels.py:33-59 | the MDBs in order; an error is re-raised and ends the run |
| DuplicateParcels.ClassRowsAreDuplicates | mdb_validator/duplicate_parcels.py:42-51 | a row comes from a polygon class and states a parcel number, not zero, with its true count, above 1 |
| DuplicateParcels.MdbRowsAreDuplicates | mdb_validator/duplicate_parcels.py:39-41 | a row of one MDB comes from one of its classes named Parcel |
| DuplicateParcels.ReportRowsAreDuplicates | mdb_validator/duplicate_parcels.py:24-59 | every data row of the report comes from one of the MDB files found |
| DuplicateParcels.DuplicateParcelsValidator.constructor | mdb_validator/duplicate_parcels.py:9-11 | no folder, no report |
| DuplicateParcels.DuplicateParcelsValidator.SetFolderPath | mdb_validator/duplicate_parcels.py:16-17 | sets the folder and leaves the report alone |
| DuplicateParcels.DuplicateParcelsValidator.RunValidation | mdb_validator/duplicate_parcels.py:19-62 | ValueError without a folder or without MDB files (report untouched); otherwise the header plus the sweep's rows, ending normally or with the re-raised error |
| DuplicateConstSegments.LengthTestInertOnDoubles | mdb_validator/duplicate_const_and_segments.py:72-90 | as written, for a double length the filter reduces to frequency > 1 |
| DuplicateConstSegments.ZeroLengthKeptAsWritten | mdb_validator/duplicate_const_and_segments.py:72 | as written, a duplicated zero-length Construction group is reported |
| DuplicateConstSegments.KeptSkipsZeroLength | mdb_validator/duplicate_const_and_segments.py:72-90 | the intended filter never reports a zero length, and differs from the written one only on a double 0.0 |
| DuplicateConstSegments.ReadFrequencyTable | mdb_validator/duplicate_const_and_segments.py:69-91 | the cursor loop with the test as written (`str(length) != "0"` and frequency above 1) writes exactly the rows of the groups that pass it, in table order: the key for Construction, "  " for the area of Segments |
| DuplicateConstSegments.KeptRowsMembers | mdb_validator/duplicate_const_and_segments.py:72-91 | for either length test, a row is written iff some group of the table passes that test, and the row is that group's |
| DuplicateConstSegments.ZeroLengthTableRows | mdb_validator/duplicate_const_and_segments.py:69-73 | a table with one duplicated Construction group of length 0.0: the written test reports it, the intended one writes nothing |
| DuplicateConstSegments.CorrectedRowsNonZero | mdb_validator/duplicate_const_and_segments.py:72-91 | with the intended test, every row of a table has five columns and a Shape_Length that is not zero |
| DuplicateConstSegments.CorrectedMdbNonZero | mdb_validator/duplicate_const_and_segments.py:51-95 | with the intended test, no row written for one MDB has a zero Shape_Length |
| DuplicateConstSegments.CorrectedRunNonZero | mdb_validator/duplicate_const_and_segments.py:43-102 | with the intended test, no row of the whole run has a zero Shape_Length |
| DuplicateConstSegments.DuplicateKeysReported | mdb_validator/duplicate_const_and_segments.py:67-91 | for one class and either length test, every row has five columns and is the row of a key of the class, with its true count, that passes the test; every such key gets its row |
| DuplicateConstSegments.TableNamesDistinct | mdb_validator/duplicate_const_and_segments.py:64-82 | the frequency-table names handed out are pairwise distinct |
| DuplicateConstSegments.ScanClass | mdb_validator/duplicate_const_and_segments.py:57-95 | one class, as written: a Construction class that is not a polygon is skipped; a missing key field raises; otherwise the rows of the written filter; the frequency table is created and deleted again, and the serial advances exactly when a table name is used |
| DuplicateConstSegments.ScanClasses | mdb_validator/duplicate_const_and_segments.py:57-95 | the classes in order with the written filter, stopping at the first error; the serial never goes back and no table outlives the loop |
| DuplicateConstSegments.ChainThen | mdb_validator/duplicate_const_and_segments.py:57-95 | the Construction loop and then the Segments loop behave as one sequence |
| DuplicateConstSegments.ScanMdb | mdb_validator/duplicate_const_and_segments.py:44-102 | one MDB, as written: an MDB that cannot be opened writes nothing; Construction classes, then Segments classes; an error keeps the rows written before it and ends that MDB only |
| DuplicateConstSegments.ScanMdbs | mdb_validator/duplicate_const_and_segments.py:43-102 | each MDB's rows under the written filter, MDB after MDB, an error in one not stopping the next; no table outlives the loop |
| DuplicateConstSegments.LaterMdbsStillReported | mdb_validator/duplicate_const_and_segments.py:97-102 | for either length test, an error in one MDB costs only that MDB's remaining rows; the MDBs before and after are reported in full |
| DuplicateConstSegments.DuplicateConstAndSegmentsValidator.constructor | mdb_validator/duplicate_const_and_segments.py:10-13 | no folder, no report |
| DuplicateConstSegments.DuplicateConstAndSegmentsValidator.SetFolderPath | mdb_validator/duplicate_const_and_segments.py:19-21 | sets the folder and leaves the report alone |
| DuplicateConstSegments.DuplicateConstAndSegmentsValidator.RunValidation | mdb_validator/duplicate_const_and_segments.py:23-107 | ValueError without a folder or MDB files; otherwise the header plus every MDB's rows under the written length test; the run always ends normally; no frequency table outlives it |
| InvalidParcelNum.ValidParcelNoIff | mdb_validator/invalid_parcelnum.py:32-57 | a parcel number passes iff it is the integer 0..9998 or exactly its decimal text |
| InvalidParcelNum.ReportedParcelNoExamples | mdb_validator/invalid_parcelnum.py:32-57 | None, 9999 (text or integer), negatives and zero-padded text are reported |
| InvalidParcelNum.AcceptedParcelNoExamples | mdb_validator/invalid_parcelnum.py:32-57 | 0 and "9998" pass |
| InvalidParcelNum.ParcelRowsMembers | mdb_validator/invalid_parcelnum.py:55-58 | a row is written iff some record's PARCELNO fails the test, and it keeps the raw value |
| InvalidParcelNum.ReadCursor | mdb_validator/invalid_parcelnum.py:54-58 | the cursor loop writes exactly the rows of the specification, in record order |
| InvalidParcelNum.MdbRowsInvalid | mdb_validator/invalid_parcelnum.py:53-58 | every row of an MDB names that MDB and carries an invalid parcel number |
| InvalidParcelNum.ScanClass | mdb_validator/invalid_parcelnum.py:53-58 | one class: a missing PARCELNO field raises, otherwise its invalid rows |
| InvalidParcelNum.ScanMdb | mdb_validator/invalid_parcelnum.py:50-58 | one MDB: its Parcel classes in order up to the first error |
| InvalidParcelNum.ScanMdbs | mdb_validator/invalid_parcelnum.py:42-65 | the MDBs in order; an error is re-raised and ends the run |
| InvalidParcelNum.InvalidParcelNumValidator.constructor | mdb_validator/invalid_parcelnum.py:11-14 | no folder, no report |
| InvalidParcelNum.InvalidParcelNumValidator.SetFolderPath | mdb_validator/invalid_parcelnum.py:16-18 | sets the folder and leaves the report alone |
| InvalidParcelNum.InvalidParcelNumValidator.RunValidation | mdb_validator/invalid_parcelnum.py:24-70 | ValueError without a folder or MDB files; otherwise the header plus the rows, ending normally or with the re-raised error |
| SuspiciousColumn.PaddingAndCaseIgnored | mdb_validator/suspicious_column.py:63-64 | whitespace around the text and the case of its letters do not matter |
| SuspiciousColumn.UpperYes | mdb_validator/suspicious_column.py:63-64 | every spelling of "yes", whatever the case of each letter, upper-cases to "YES" |
| SuspiciousColumn.PaddedYesFlagged | mdb_validator/suspicious_column.py:63-64 | "yes" in any case with any surrounding whitespace is flagged |
| SuspiciousColumn.PaddedYFlagged | mdb_validator/suspicious_column.py:63-64 | "y" in any case with any surrounding whitespace is flagged |
| SuspiciousColumn.NoNotFlagged | mdb_validator/suspicious_column.py:63-64 | "No" is not flagged |
| SuspiciousColumn.LongerTextNotFlagged | mdb_validator/suspicious_column.py:64 | the whole value must be the flag: "yes please" is not flagged |
| SuspiciousColumn.NullNotFlagged | mdb_validator/suspicious_column.py:63 | None reads as "" and is not flagged |
| SuspiciousColumn.NumericNotFlagged | mdb_validator/suspicious_column.py:63-64 | the text of a number never normalises to a flag |
| SuspiciousColumn.OnlyTextFlagged | mdb_validator/suspicious_column.py:63-64 | only a text value can be flagged |
| SuspiciousColumn.FlagRowsMembers | mdb_validator/suspicious_column.py:61-65 | a row is written iff some record's suspicious value is flagged, and it keeps the raw value |
| SuspiciousColumn.ReadCursor | mdb_validator/suspicious_column.py:60-65 | the cursor loop writes exactly the rows of the specification, in record order |
| SuspiciousColumn.ClassRowsOfMdb | mdb_validator/suspicious_column.py:52-65 | a row of one class is the missing-column row or a flag row, naming the MDB |
| SuspiciousColumn.MdbRowsShape | mdb_validator/suspicious_column.py:52-74 | every row of an MDB is a missing-column row, an error row or a flag row, each naming that MDB |
| SuspiciousColumn.LaterMdbsStillReported | mdb_validator/suspicious_column.py:67-74 | an error in one MDB costs only that MDB's remaining rows; the MDBs before and after are reported in full |
| SuspiciousColumn.ScanClass | mdb_validator/suspicious_column.py:52-65 | one class: without the suspicious column, the missing-column row; a missing PARCELNO raises; otherwise the flag rows |
| SuspiciousColumn.ScanMdb | mdb_validator/suspicious_column.py:42-74 | one MDB: its classes' rows up to the first error, then one error row for it |
| SuspiciousColumn.ScanMdbs | mdb_validator/suspicious_column.py:41-74 | each MDB's rows, MDB after MDB |
| SuspiciousColumn.SuspiciousColumnValidator.constructor | mdb_validator/suspicious_column.py:9-12 | no folder, no report |
| SuspiciousColumn.SuspiciousColumnValidator.SetFolderPath | mdb_validator/suspicious_column.py:18-20 | sets the folder and leaves the report alone |
| SuspiciousColumn.SuspiciousColumnValidator.RunValidation | mdb_validator/suspicious_column.py:22-79 | ValueError without a folder or MDB files; otherwise the header plus every MDB's rows, ending normally |
| SmallAreas.ThresholdBoundaries | mdb_validator/small_areas.py:59-69 | the test is strict against 5 for a Parcel and 0.5 for a Construction; under Python 2 ordering a None area is always small and a text area never |
| SmallAreas.SmallRowsMembers | mdb_validator/small_areas.py:67-74 | a row is written iff some record's Shape_Area is below the class's threshold |
| SmallAreas.ReadCursor | mdb_validator/small_areas.py:66-75 | the cursor loop writes exactly the rows of the specification, in record order: PARCELNO and an empty ParFID for a Parcel, the reverse for a Construction |
| SmallAreas.ClassRowsSmall | mdb_validator/small_areas.py:59-74 | a row of a Parcel or Construction class names its path and class and has an area below that class's threshold |
| SmallAreas.MdbRowsSmall | mdb_validator/small_areas.py:45-74 | every row of an MDB comes from a Parcel or Construction class and is a small-area row |
| SmallAreas.ScanClass | mdb_validator/small_areas.py:48-75 | one class: skipped when not a polygon class or without Shape_Area; a missing id field raises; otherwise the small rows |
| SmallAreas.ScanMdb | mdb_validator/small_areas.py:45-75 | one MDB: its Parcel and Construction classes in order up to the first error |
| SmallAreas.ScanMdbs | mdb_validator/small_areas.py:38-82 | the MDBs in order; an error is re-raised and ends the run |
| SmallAreas.SmallAreasValidator.constructor | mdb_validator/small_areas.py:9-12 | no folder, no report |
| SmallAreas.SmallAreasValidator.SetFolderPath | mdb_validator/small_areas.py:18-20 | sets the folder and leaves the report alone |
| SmallAreas.SmallAreasValidator.RunValidation | mdb_validator/small_areas.py:22-86 | ValueError without a folder or MDB files; otherwise the header plus the rows, ending normally or with the re-raised error |
| InvalidSheet.AtMostOneScale | mdb_validator/invalid_sheet.py:14-17 | the seven prefixes have four characters each and are distinct, so a sheet number matches at most one scale |
| InvalidSheet.NullSheetFlagged | mdb_validator/invalid_sheet.py:69-70 | a None GRIDS1 reads as "" and is reported at every scale |
| InvalidSheet.FlaggedExamples | mdb_validator/invalid_sheet.py:69-70 | at 1:1200 "55551234" passes, "1234" is reported, and an integer is judged by its decimal text |
| InvalidSheet.SheetRowsMembers | mdb_validator/invalid_sheet.py:68-72 | a row is written iff some record's GRIDS1 text lacks the scale's prefix |
| InvalidSheet.ReadCursor | mdb_validator/invalid_sheet.py:67-72 | the cursor loop writes exactly the rows of the specification, in record order |
| InvalidSheet.MdbRowsFlagged | mdb_validator/invalid_sheet.py:66-72 | every row of an MDB names that MDB, carries a GRIDS1 text without the prefix, and the fixed status text |
| InvalidSheet.ScanClass | mdb_validator/invalid_sheet.py:66-72 | one class: a missing field raises, otherwise its flagged rows |
| InvalidSheet.ScanMdb | mdb_validator/invalid_sheet.py:63-72 | one MDB: its Parcel classes in order up to the first error |
| InvalidSheet.ScanMdbs | mdb_validator/invalid_sheet.py:55-79 | the MDBs in order; an error is re-raised and ends the run |
| InvalidSheet.InvalidSheetValidator.constructor | mdb_validator/invalid_sheet.py:9-17 | no folder, no scale, no report |
| InvalidSheet.InvalidSheetValidator.SetFolderPath | mdb_validator/invalid_sheet.py:23-25 | sets the folder only |
| InvalidSheet.InvalidSheetValidator.SetScale | mdb_validator/invalid_sheet.py:27-29 | sets the scale only |
| InvalidSheet.InvalidSheetValidator.RunValidation | mdb_validator/invalid_sheet.py:31-84 | ValueError for a missing folder, then a missing scale, then an unknown scale, then no MDB files; otherwise the header plus the rows, ending normally or with the re-raised error |
| InvalidWard.ValidWardIff | mdb_validator/invalid_ward.py:30-56 | a ward number passes iff it is the integer 1..9 or exactly that digit as text |
| InvalidWard.ReportedWardExamples | mdb_validator/invalid_ward.py:30-56 | None, "0", "10", 10 and the double 5.0 are reported; "9" and 1 pass |
| InvalidWard.WardRowsMembers | mdb_validator/invalid_ward.py:54-57 | a row is written iff some record's WARDNO fails the test, and it keeps the raw value |
| InvalidWard.ReadCursor | mdb_validator/invalid_ward.py:53-57 | the cursor loop writes exactly the rows of the specification, in record order |
| InvalidWard.MdbRowsInvalid | mdb_validator/invalid_ward.py:52-57 | every row of an MDB names that MDB and carries an invalid ward number |
| InvalidWard.ScanClass | mdb_validator/invalid_ward.py:52-57 | one class: a missing field raises, otherwise its invalid rows |
| InvalidWard.ScanMdb | mdb_validator/invalid_ward.py:49-57 | one MDB: its Parcel classes in order up to the first error |
| InvalidWard.ScanMdbs | mdb_validator/invalid_ward.py:41-64 | the MDBs in order; an error is re-raised and ends the run |
| InvalidWard.InvalidWardValidator.constructor | mdb_validator/invalid_ward.py:9-12 | no folder, no report |
| InvalidWard.InvalidWardValidator.SetFolderPath | mdb_validator/invalid_ward.py:18-20 | sets the folder and leaves the report alone |
| InvalidWard.InvalidWardValidator.RunValidation | mdb_validator/invalid_ward.py:22-69 | ValueError without a folder or MDB files; otherwise the header plus the rows, ending normally or with the re-raised error |
| SegmentCounts.CountRowsLength | mdb_validator/segment_counts.py:49-56 | exactly one row per polyline class |
| SegmentCounts.CountRowsMembers | mdb_validator/segment_counts.py:49-56 | a row is written for a class iff it is a polyline class, and the row holds its path, name and record count |
| SegmentCounts.NoPolylineNoRows | mdb_validator/segment_counts.py:51-56 | a list with no polyline class writes nothing |
| SegmentCounts.CountSegments | mdb_validator/segment_counts.py:49-56 | the class loop writes exactly the rows of the specification, in listing order |
| SegmentCounts.MdbRowsCounted | mdb_validator/segment_counts.py:46-54 | every row of an MDB counts the records of one of its polyline Segments classes |
| SegmentCounts.MdbRowCount | mdb_validator/segment_counts.py:46-56 | an MDB that opens never raises and writes one row per polyline Segments class |
| SegmentCounts.ScanMdb | mdb_validator/segment_counts.py:46-56 | one MDB: an MDB that cannot be opened raises, otherwise its count rows |
| SegmentCounts.ScanMdbs | mdb_validator/segment_counts.py:39-63 | the MDBs in order; an error is re-raised and ends the run |
| SegmentCounts.SegmentCountsValidator.constructor | mdb_validator/segment_counts.py:9-12 | no folder, no report |
| SegmentCounts.SegmentCountsValidator.SetFolderPath | mdb_validator/segment_counts.py:18-20 | sets the folder and leaves the report alone |
| SegmentCounts.SegmentCountsValidator.RunValidation | mdb_validator/segment_counts.py:22-67 | ValueError without a folder or MDB files; otherwise the header plus the rows, ending normally or with the re-raised error |
| SheetNumber.IntMatches | mdb_validator/sheet_number.py:71 | an integer PageNumber matches exactly the same integer or its decimal text |
| SheetNumber.DoubleNeverMatchesInt | mdb_validator/sheet_number.py:71 | a double PageNumber always mismatches an integer GRIDS1, even of equal value |
| SheetNumber.NullsMatch | mdb_validator/sheet_number.py:71 | two NULLs match, a NULL and an empty text do not |
| SheetNumber.MismatchRowsMembers | mdb_validator/sheet_number.py:70-72 | a row is written for a piece iff its PageNumber and GRIDS1 print differently, and the row is that piece's |
| SheetNumber.ReadCursor | mdb_validator/sheet_number.py:68-72 | the cursor loop writes exactly the mismatch rows, in cursor order |
| SheetNumber.FailureSticks | mdb_validator/sheet_number.py:74-77 | once an MDB raises, the MDBs after it are never processed |
| SheetNumber.SkippedMdbChangesNothing | mdb_validator/sheet_number.py:41-60 | an MDB without a root Parcel or without PageNumber in the intersection writes nothing |
| SheetNumber.StepReport | mdb_validator/sheet_number.py:63-72 | a report written for an MDB is named after it and holds the header and its mismatched pieces |
| SheetNumber.ReportOfLonger | mdb_validator/sheet_number.py:39 | a report of some MDB of a list is one of any longer list |
| SheetNumber.ReportsWellFormed | mdb_validator/sheet_number.py:39-77 | every report file written comes from one MDB of the list and holds only the header and its mismatched pieces |
| SheetNumber.SameFileNameSameReport | mdb_validator/sheet_number.py:63 | MDBs in different folders with the same file name share one report name |
| SheetNumber.RunValueErrors | mdb_validator/sheet_number.py:24-31 | a ValueError iff the folder or grid sheet is unset or the template is not found, and then no report |
| SheetNumber.ScanMdb | mdb_validator/sheet_number.py:40-72 | one MDB's step; the stale intersection is deleted and recreated |
| SheetNumber.ScanMdbs | mdb_validator/sheet_number.py:39-77 | the loop's reports and error are those of the specification, and whether the intersection output is left behind |
| SheetNumber.OutputLiveSticks | mdb_validator/sheet_number.py:74-77 | after an error, the later MDBs do not touch the intersection output |
| SheetNumber.SheetNumberValidator.constructor | mdb_validator/sheet_number.py:9-12 | no folder, no grid sheet, no report |
| SheetNumber.SheetNumberValidator.SetFolderPath | mdb_validator/sheet_number.py:17-18 | sets the folder only |
| SheetNumber.SheetNumberValidator.SetGridsheet | mdb_validator/sheet_number.py:20-21 | sets the grid sheet only |
| SheetNumber.SheetNumberValidator.RunValidation | mdb_validator/sheet_number.py:23-80 | the outcome and reports of the specification; a ValueError touches nothing |
| Overlaps.EntriesOf | mdb_validator/overlaps.py:44 | one entry per class found, in order, tagged with its MDB |
| Overlaps.GatheredAreValid | mdb_validator/overlaps.py:38-44 | every collected class is a Parcel, Construction or Segments class found in one of the MDBs |
| Overlaps.GatherFeatureFiles | mdb_validator/overlaps.py:38-50 | the collection loop gives the specification's list, or the first MDB's error |
| Overlaps.GatherSticks | mdb_validator/overlaps.py:45-50 | once an MDB raises, the later MDBs are not read |
| Overlaps.PairsWith | mdb_validator/overlaps.py:60-62 | the inner loop visits (i, j) for each j after i, in order |
| Overlaps.PairsFromMembers | mdb_validator/overlaps.py:59-62 | from row i on, (a, b) is visited iff i <= a < b, with the classes at a and b |
| Overlaps.PairsFromOrdered | mdb_validator/overlaps.py:59-60 | the pairs come in lexicographic order |
| Overlaps.PairsExact | mdb_validator/overlaps.py:59-62 | every pair of positions i < j is visited, and exactly once |
| Overlaps.JoinDiffers | mdb_validator/overlaps.py:64 | joining different names to one path gives different paths |
| Overlaps.SameFolderMissesDatasets | mdb_validator/overlaps.py:64-66 | two classes of one MDB in two datasets have different parent folders, so the written test compares them |
| Overlaps.RootClassesSkippedByBoth | mdb_validator/overlaps.py:64-66 | two root classes of one MDB are skipped by the written test and by the owning-MDB test |
| Overlaps.SweepRowsSound | mdb_validator/overlaps.py:59-88 | every row is a visited pair the rule keeps, with its positive count |
| Overlaps.SweepRowsComplete | mdb_validator/overlaps.py:59-88 | when nothing raised, every kept pair with a positive count is reported |
| Overlaps.RowsCrossMdbs | mdb_validator/overlaps.py:59-88 | with the owning-MDB test, every row pairs classes of two different MDBs |
| Overlaps.CrossMdbPairReported | mdb_validator/overlaps.py:59-88 | with the owning-MDB test, a pair from two MDBs with a positive count is reported |
| Overlaps.RowsCrossFolders | mdb_validator/overlaps.py:59-88 | as written, every row pairs classes i < j whose parent folders differ, with their positive count |
| Overlaps.CrossFolderPairReported | mdb_validator/overlaps.py:59-88 | as written, a pair i < j in two different folders with a positive count is reported when nothing raised |
| Overlaps.SweepAdvance | mdb_validator/overlaps.py:60-88 | one more pair of the inner loop is folded into the rows so far |
| Overlaps.RowAdvance | mdb_validator/overlaps.py:59-88 | one more row of the outer loop is folded into the rows so far |
| Overlaps.SweepDone | mdb_validator/overlaps.py:59-88 | a sweep that raised, or has no pairs left, has its rows and error final |
| Overlaps.WrittenRuleReportsWithinMdb | mdb_validator/overlaps.py:64-81 | a concrete input where the written test reports two classes of one MDB and the owning-MDB test does not |
| Overlaps.SweepStep | mdb_validator/overlaps.py:59-88 | the pairs are processed one after the other |
| Overlaps.SweepAppend | mdb_validator/overlaps.py:59-88 | sweeping two pair lists one after the other is sweeping their concatenation |
| Overlaps.ComparePair | mdb_validator/overlaps.py:61-93 | one pair: skipped when the two paths have the same parent folder, otherwise raised when the engine has no count for it, or a row when its count is positive; the in-memory output of a compared pair is deleted, and a skipped pair touches nothing |
| Overlaps.CompareRow | mdb_validator/overlaps.py:60-93 | the inner loop over (i, j), j > i, gives the rows and the error of the parent-folder sweep of those pairs, stopping at the first error, and leaves no in-memory output behind |
| Overlaps.ComparePairs | mdb_validator/overlaps.py:59-93 | the two loops give the rows and the error of the parent-folder sweep of all pairs i < j, stopping at the first error, and leave no in-memory output behind |
| Overlaps.OverlapsValidator.constructor | mdb_validator/overlaps.py:9-12 | no folder, no report |
| Overlaps.OverlapsValidator.SetFolderPath | mdb_validator/overlaps.py:18-20 | sets the folder only |
| Overlaps.OverlapsValidator.RunValidation | mdb_validator/overlaps.py:22-97 | ValueError without a folder, with fewer than 2 MDBs or fewer than 2 classes, a raise when an MDB cannot be read; otherwise the report is the header and the rows of the parent-folder sweep, written also when a pair raised |
| Overlaping.FirstUnderscore | Overlaping.py:57 | in digits, an underscore and more text, the first underscore follows the digits |
| Overlaping.SplitAtUnderscore | Overlaping.py:57 | digits, an underscore and text split back uniquely |
| Overlaping.TempNamesDistinct | Overlaping.py:57 | no two pairs (i, j) share an in-memory output name |
| Overlaping.RowTempsMembers | Overlaping.py:49-71 | the outputs row i creates and deletes are exactly those of its pairs (i, k) of two different MDBs |
| Overlaping.TempsMembers | Overlaping.py:48-71 | the outputs of the whole loop are exactly those of the pairs a < b of two different MDBs |
| Overlaping.CaughtAppend | Overlaping.py:48-71 | a pair's error never stops the loop, so the rows of two pair lists concatenate |
| Overlaping.CaughtRowsSound | Overlaping.py:50-68 | every row reports a pair of classes from two different MDBs with a positive count |
| Overlaping.CaughtRowsComplete | Overlaping.py:50-68 | every pair from two MDBs with a positive count is reported, whatever other pairs raise |
| Overlaping.ReRaisingWritesPrefix | Overlaping.py:59-68 | the overlaps validator with the corrected owning-MDB test, which re-raises, writes a prefix of the script's rows, and all of them when nothing raises |
| Overlaping.ScriptRowsCrossMdbs | Overlaping.py:48-68 | every row pairs classes i < j of two different MDBs |
| Overlaping.CrossMdbPairAlwaysReported | Overlaping.py:48-68 | every pair i < j from two MDBs with a positive count is reported |
| Overlaping.ScriptReport | Overlaping.py:14-45 | the report needs a chosen, listable folder with at least two MDB files and starts with the header |
| Overlaping.CaughtAdvance | Overlaping.py:49-71 | one more pair's rows are appended |
| Overlaping.RowAdvance | Overlaping.py:48-71 | one more row's rows are appended |
| Overlaping.RowTempsAdvance | Overlaping.py:57-71 | one more compared pair's output is deleted |
| Overlaping.ComparePair | Overlaping.py:50-71 | one pair: skipped within one MDB, a row when the count is positive, nothing on an engine error; its output is deleted |
| Overlaping.CompareRow | Overlaping.py:49-71 | the inner loop writes row i's rows and deletes its outputs |
| Overlaping.ComparePairs | Overlaping.py:48-71 | the two loops write exactly the specification's rows and delete every output they create |
| Overlaping.CheckOverlaps | Overlaping.py:12-73 | the whole script ends as the specification says and leaves no in-memory output behind |
| ParcelReport.MdbEntriesMembers | test.py:22 | a path is listed iff it joins the directory to an entry ending in ".mdb" |
| ParcelReport.UpperSuffixNotListed | test.py:22 | the suffix test is case-sensitive: "A.MDB" is not listed |
| ParcelReport.ListMdbFiles | test.py:22 | the listing comprehension keeps exactly the ".mdb" entries, in order |
| ParcelReport.PolygonsMembers | test.py:33 | a class is kept iff it is a polygon class |
| ParcelReport.CrashSticks | test.py:25-34 | once an MDB cannot be listed, the later MDBs are not read |
| ParcelReport.CollectedAreParcelPolygons | test.py:25-34 | every class collected is a polygon class named exactly Parcel from one of the MDBs |
| ParcelReport.CollectParcels | test.py:25-34 | the first pass collects the specification's classes |
| ParcelReport.ZeroIsReported | test.py:59-63 | a parcel number 0 carried by several records is reported |
| ParcelReport.ReportClasses | test.py:47-72 | the second pass writes every class's duplicate groups and deletes the frequency table |
| ParcelReport.ProcessMdbFiles | test.py:17-74 | no report without Parcel polygon classes; otherwise the header and every duplicate group |
| Topology.ToleranceFallback | mdb_validator/topology_check.py:108 | a number is used as it is; text, the default included, becomes 0.001 |
| Topology.ErrorPathInCadastre | mdb_validator/topology_check.py:120-124 | the exported error polygons lie in the Cadastre dataset and end in "_poly" |
| Topology.KeepValidMembers | mdb_validator/topology_check.py:142-143 | a character survives cleaning iff it is in the name and is a valid character |
| Topology.KeepValidAll | mdb_validator/topology_check.py:142-143 | a name of valid characters only is kept as it is |
| Topology.CleanNameChars | mdb_validator/topology_check.py:142-144 | the cleaned name holds only valid characters and no space, and is no longer than the name |
| Topology.KeepValidLength | mdb_validator/topology_check.py:142-143 | cleaning never lengthens a name |
| Topology.CleanNameIdempotent | mdb_validator/topology_check.py:142-144 | cleaning a cleaned name changes nothing |
| Topology.RFind | mdb_validator/topology_check.py:140 | the last index of the character, or -1 when there is none |
| Topology.RootOfExtension | mdb_validator/topology_check.py:140 | only the last extension is removed from the base name |
| Topology.HiddenNameKeepsDot | mdb_validator/topology_check.py:140 | a name whose only dot leads it has no extension |
| Topology.AttributeFieldsMembers | mdb_validator/topology_check.py:183-184 | a name is listed iff some field of that name is an attribute field |
| Topology.AttributeFieldsNoShape | mdb_validator/topology_check.py:183-184 | no listed name starts with "Shape_" or "OBJECTID" |
| Topology.HeaderLayout | mdb_validator/topology_check.py:200-203 | six fixed columns, then Parcel1_ and Parcel2_ for every field |
| Topology.Attrs | mdb_validator/topology_check.py:186-188 | a cursor tuple's attribute part: one value per field, the k-th being the record's value of the k-th field |
| Topology.ReadParcelData | mdb_validator/topology_check.py:181-188 | the cursor loop maps every object id to its attributes |
| Topology.KeptMembers | mdb_validator/topology_check.py:207-212 | a triple is used iff it joins two different known parcels |
| Topology.CorrelateIsNumbered | mdb_validator/topology_check.py:207-225 | the rows written are the kept triples numbered 1..n in order |
| Topology.OverlapIds | mdb_validator/topology_check.py:207-225 | as many rows as kept triples, each joining two different known parcels |
| Topology.RowsMatchHeader | mdb_validator/topology_check.py:200-225 | every row is as wide as the header |
| Topology.WriteOverlaps | mdb_validator/topology_check.py:207-225 | the error loop writes the numbered rows and counts them |
| Topology.FindClass | mdb_validator/topology_check.py:80 | the first class of that name, or none when no class has it |
| Topology.CheckedTable | mdb_validator/topology_check.py:200-225 | a checked MDB's table is the header and one row per overlap |
| Topology.StepNeedsLayerAndParcel | mdb_validator/topology_check.py:272-285 | an MDB is looked at iff it opens and a root class carries the configured layer name; it is checked iff, in addition, a root class is named "Parcel" and the topology was built; the table's columns come from that "Parcel" class whatever the layer |
| Topology.SweepAdvance | mdb_validator/topology_check.py:285-290 | one more MDB folded into the totals |
| Topology.LiveAdvance | mdb_validator/topology_check.py:267-303 | one more MDB's effect on the staging datasets |
| Topology.SumCountsAppend | mdb_validator/topology_check.py:285-287 | the sum of the counts grows by the appended report's count |
| Topology.TotalIsSumOfReports | mdb_validator/topology_check.py:285-290 | the total is the sum of the listed counts, and only MDBs with overlaps are listed |
| Topology.ReportsMembers | mdb_validator/topology_check.py:285-290 | a report is listed iff some MDB was checked with that outcome and a positive count |
| Topology.MdbPathIsPlain | mdb_validator/topology_check.py:47 | every path found ends in a letter, so it can be joined onto |
| Topology.CadastreDistinct | mdb_validator/topology_check.py:64 | different MDBs have different Cadastre datasets |
| Topology.LiveAfterOthers | mdb_validator/topology_check.py:267-303 | later MDBs do not touch an earlier MDB's Cadastre |
| Topology.KeepTopologySwitch | mdb_validator/topology_check.py:232-237 | after the run, a checked MDB's Cadastre exists iff keep_topology is set |
| Topology.FailedTopologyLeavesCadastre | mdb_validator/topology_check.py:64-133 | when the topology cannot be validated, the Cadastre dataset is left behind |
| Topology.ParcelOverlapValidator.constructor | mdb_validator/topology_check.py:12-19 | no folder, layer Parcel, no output folder, the default tolerance, topology not kept |
| Topology.ParcelOverlapValidator.SetParameters | mdb_validator/topology_check.py:22-25 | sets folder and layer; no output folder means Overlap_Reports in the folder |
| Topology.ParcelOverlapValidator.SetFolderPath | mdb_validator/topology_check.py:33-35 | sets the folder and resets the layer and the output folder |
| Topology.ParcelOverlapValidator.FindMdbFiles | mdb_validator/topology_check.py:43-50 | every .mdb file below the folder, with no exclusion |
| Topology.ParcelOverlapValidator.CreateTopology | mdb_validator/topology_check.py:60-124 | Cadastre is recreated; the error path is returned iff the layer is found and the engine validates |
| Topology.ParcelOverlapValidator.GenerateOutputs | mdb_validator/topology_check.py:135-239 | the report table and count; Cadastre is deleted unless keep_topology is set |
| Topology.ParcelOverlapValidator.ProcessMdb | mdb_validator/topology_check.py:268-303 | one MDB's step and its effect on Cadastre |
| Topology.ParcelOverlapValidator.ProcessAll | mdb_validator/topology_check.py:267-303 | the loop's total and reports, and the staging datasets left |
| Topology.ParcelOverlapValidator.Accumulate | mdb_validator/topology_check.py:285-290 | a checked MDB adds its count and is listed when the count is positive |
| Topology.ParcelOverlapValidator.RunValidation | mdb_validator/topology_check.py:246-303 | ValueError without a folder or MDB files; otherwise the totals of the specification |
| MainApp.ConfiguredOnlySelected | mdb_validator/main.py:162-172 | only a selected validator gets the folder, and the scale or grid sheet only when it takes one |
| MainApp.RunOrderMembers | mdb_validator/main.py:176-177 | a validator runs iff it is selected, in list order |
| MainApp.FailuresMembers | mdb_validator/main.py:176-190 | a validator is reported failed iff it is selected and raised |
| MainApp.SuccessesAndFailures | mdb_validator/main.py:175-190 | every validator that runs either succeeds or fails |
| MainApp.SelectedCountsRuns | mdb_validator/main.py:192-193 | with 0/1 flags, the selected count is the runs; all succeeded iff none failed |
| MainApp.BlankFolderRejected | mdb_validator/main.py:152-155 | a folder entry of blanks only counts as empty |
| MainApp.App.constructor | mdb_validator/main.py:23-116 | the seven validators, every one selected, default scale and grid sheet |
| MainApp.App.SelectAll | mdb_validator/main.py:138-142 | every flag becomes 1 |
| MainApp.App.SelectNone | mdb_validator/main.py:144-148 | every flag becomes 0 |
| MainApp.App.ConfigureSelected | mdb_validator/main.py:162-172 | the setups of the specification |
| MainApp.App.RunSelected | mdb_validator/main.py:175-190 | the run order, the success count and the failed names of the specification |
| MainApp.App.RunValidations | mdb_validator/main.py:150-193 | no folder or not a directory stops; otherwise configure, run, and report successes out of the selected count |
| Values.NatToStr | mdb_validator/invalid_parcelnum.py:32 | `str()` of a natural number: digits only, a leading zero only for 0, one digit exactly below 10 |
| Values.RealToStr | mdb_validator/sheet_number.py:71 | the modelled `str()` of a double (fixed-point, see "Left out") always holds a decimal point |
| Values.LowerHasNoUpper | mdb_validator/utils.py:10 | lower-cased text holds no upper-case letter |
| Values.TrimLeft | mdb_validator/main.py:152 | leading whitespace removed: a suffix of the text that does not start with whitespace |
| Values.TrimRight | mdb_validator/main.py:152 | trailing whitespace removed: a prefix of the text that does not end with whitespace |
| Utils.MdbSuffix | mdb_validator/utils.py:14-16 | a file whose name ends in ".mdb" in any case gives a path that does too |
| Utils.HitsSound | mdb_validator/utils.py:13-16 | every file reported from one directory names an .mdb file and is not excluded |
| Utils.FlatUnderExcluded | mdb_validator/utils.py:10-11 | nothing is found below an excluded folder |
| Utils.ExcludedAppendUpper | mdb_validator/utils.py:10 | an exclusion string with an upper-case letter excludes nothing more |
| Utils.MatchesSound | mdb_validator/utils.py:28-31 | every class returned from one dataset is a requested class of that dataset |
| Utils.MatchesComplete | mdb_validator/utils.py:28-31 | every requested class of a dataset is returned |
| Utils.ResolveSound | mdb_validator/utils.py:25-31 | every class returned comes from one of the datasets |
| Utils.ResolveComplete | mdb_validator/utils.py:25-31 | every requested class of every dataset is returned |

## Left out

- The geoprocessing engine is not modelled. Frequency tables, intersections, topology validation, feature copies, field listings, cursors, `Exists` and `Delete` are given as data. The frequency tool is computed from the records. Intersection counts, intersection tables and topology errors are input maps. Temporary outputs are a set of live names.
- The engine's global workspace (`arcpy.env.workspace`) is not modelled. Listing a workspace is a lookup of its path.
- Tkinter is not modelled: widgets, message boxes, the folder dialogs and the `__main__` block of `mdb_validator/main.py`. The folder a dialog returns is a parameter, and "no folder" is the empty string.
- Status messages (`status_var.set`) and `print` output are logging only and are left out.
- File I/O is not modelled: CSV encoding and file modes, `os.makedirs`, the summary text file of `topology_check.py`, and the `os.remove` of empty topology outputs. A report is a sequence of rows, and a report that a run writes is returned as a value.
- `os.walk`, `os.listdir` and `os.path.isdir` are inputs: a directory tree, a listing (absent when it raises), and a set of directories.
- Topology.ParcelOverlapValidator.GenerateOutputs: the output-folder creation and wipe (topology_check.py:148-173) and the caught exception that returns `None, None, 0` are not modelled. An MDB whose outputs fail would count 0 and keep its Cadastre dataset; the model assumes the outputs are written.
- Topology.ParcelOverlapValidator.CreateTopology: `arcpy.Exists(error_fc)` is modelled as the topology-error input holding the MDB and tolerance. Any engine failure while preparing or validating the topology is the same absence.
- Topology.ReadParcelData: the copy Parcel1 is assumed to number its records 1..n, as a fresh feature-class copy does.
- Topology.EffectiveTolerance: a numeric tolerance is a `real`; Python's distinction between `int` and `float` does not matter here.
- Topology.Run: the per-MDB `except` of topology_check.py:301-303 is reached only through engine failures, which the model represents as an MDB that cannot be opened (skipped) or a topology that cannot be built (not checked).
- In `duplicate_const_and_segments.py`, the `uuid4` names of the frequency tables are modelled as a serial counter. The property kept is that the names are distinct.
- In `main.py`, each validator is abstracted as a name, whether it takes a scale or a grid sheet, and whether its run raises. The validators' own runs are the other modules.
- MainApp.App.ConfigureSelected: the grid sheet and scale are the values of the combo boxes; the widgets themselves are left out.
- Overlaping.CheckOverlaps: an MDB the engine cannot open ends the script as a crash, as an uncaught arcpy error would.
- In `sheet_number.py`, the template folder is the constant of sheet_number.py:29; the grid sheet is assumed to be a plain file name.
- Values.RealToStr: Python 2's `str()` of a double is `'%.12g'` with ".0" added to integral results. The model writes fixed-point text with at most 12 fraction digits, cut off rather than rounded. The two agree on doubles below 1e12 whose decimal expansion has at most 12 significant digits. They differ on values with more significant digits (Python rounds to 12), on magnitudes of 1e12 and above or below 1e-4 (Python writes an exponent, as in "1e+12" or "1e-05"), and on infinities and NaN (Python writes "inf" and "nan", which a `real` cannot hold). The fact the validators use, that the text of a double is never a bare run of digits, holds for Python's text too: it always carries a '.', an 'e' or letters.
- Values.NumbersPrintNumeric: holds for the model's rendering only. Python's exponent form also contains 'e' and '+', and "inf" and "nan" are letters. The use in suspicious_column.py:63-64 still holds for Python's text: no number reads "YES" or "Y" after `strip().upper()`.
- InvalidSheet.InvalidSheetValidator.RunValidation: a GRIDS1 double of 1e12 or more prints in exponent form in Python ("1e+12"), so the `startswith(scale)` test of invalid_sheet.py:70 can judge it differently from the model's fixed-point text. The same holds for doubles that need more than 12 significant digits. The ASCII assumption under `Values.ToStr` also applies.
- SheetNumber.SheetNumberValidator.RunValidation: the `str(row[0]) != str(row[1])` test of sheet_number.py:71 compares Python's rounded '%.12g' texts. Two doubles that differ only after 12 significant digits print alike in Python and differently in the model. The ASCII assumption under `Values.ToStr` also applies.
- Values.ToStr: text cells are assumed to hold ASCII characters only. A cursor hands text back as `unicode`, and Python 2's `str()` of a unicode value with a non-ASCII character raises UnicodeEncodeError. The model returns the text itself, so the error paths below are not modelled.
- InvalidParcelNum.InvalidParcelNumValidator.RunValidation: a PARCELNO text with a non-ASCII character would raise at invalid_parcelnum.py:56. That error is re-raised and ends the run with the report as written so far. The model writes a row for it instead.
- InvalidWard.InvalidWardValidator.RunValidation: a WARDNO text with a non-ASCII character would raise at invalid_ward.py:55. That error is re-raised and ends the run. The model writes a row for it instead.
- InvalidSheet.InvalidSheetValidator.RunValidation (non-ASCII): a GRIDS1 text with a non-ASCII character would raise at invalid_sheet.py:69. That error is re-raised and ends the run. The model tests its prefix instead.
- SheetNumber.SheetNumberValidator.RunValidation (non-ASCII): a PageNumber or GRIDS1 text with a non-ASCII character would raise at sheet_number.py:71. That error is re-raised and ends the run. The model compares the texts instead.
- SuspiciousColumn.ScanMdb: a `suspicious` text with a non-ASCII character would raise at suspicious_column.py:63. The source then writes a "Processing error" row for the MDB and skips the rest of it. The model flags or passes the value instead.
- SuspiciousColumn.SuspiciousColumnValidator.RunValidation: the "Processing error" row of a non-ASCII `suspicious` value is missing, as for SuspiciousColumn.ScanMdb.
- Engine.Frequency: the groups come in the order their keys first occur among the records. The engine's own output order is not modelled, so the order of the rows within one class's table is an assumption. Which rows are written, and what each holds, does not depend on it.
- SheetNumber.HasRootParcel: `arcpy.Exists` on `mdb\Parcel` matches names without regard to case, and also matches a table or feature dataset of that name. The model requires a root feature class named exactly "Parcel".
- Floating-point arithmetic is not modelled. Areas and lengths are `real` and are only compared.

## Findings

| source | as written | input that shows it | evidently intended | confidence | as-written member | corrected member |
|---|---|---|---|---|---|---|
| mdb_validator/overlaps.py:64-66 | a pair is skipped when the two class paths have the same parent folder | two classes of one MDB in two datasets, `a.mdb\D1\Parcel` and `a.mdb\D2\Segments`, with 4 overlapping features: the pair is compared and reported | skip pairs from the same MDB, as the message on line 65 says and as Overlaping.py:53 does | not executed | Overlaps.WrittenRuleReportsWithinMdb | Overlaps.RowsCrossMdbs |
| mdb_validator/duplicate_const_and_segments.py:72,90 | a group is dropped when `str(Shape_Length)` is "0" | a Construction group with Shape_Length 0.0 and frequency 2: `str(0.0)` is "0.0", so the group is reported | drop groups whose length is zero | not executed | DuplicateConstSegments.ZeroLengthKeptAsWritten | DuplicateConstSegments.KeptSkipsZeroLength |
