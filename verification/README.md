# Nessus result enhancer — a verified model

`nessus_linker.py` takes the CSV exports of Nessus scans from `~/ScanResults`.
For each export it:

- turns every `Plugin ID` cell into a spreadsheet `HYPERLINK` formula that points to
  the plugin's page on Tenable's site;
- writes the table as an `.xlsx` workbook to `~/ScanResults/ModifiedResults`;
- moves the export to `~/ScanResults/OldResults`.

It can also zip the workbooks, one archive per workbook or one archive holding all of
them, optionally protected by a password the user types twice.

This project models the deterministic logic under that glue, one Dafny module per
component:

| module | what it models |
|---|---|
| `Text` (`text.dfy`) | the Python string operations the tool relies on: `split("/")[-1]`, `split(".")[0]`, `replace(".xlsx", "")` and `endswith` |
| `Hyperlink` (`hyperlink.dfy`) | `make_hyperlink`, and a parser of the formula it writes, used to state the round trip |
| `Records` (`records.dfy`) | a scan table (header and rows of rendered cell strings) and the rewrite of its `Plugin ID` column |
| `Discovery` (`discovery.dfy`) | `file_finder` over a directory listing given as a sequence of path strings |
| `Naming` (`naming.dfy`) | the directory layout and every name derived from a path: base name, workbook name and path, archive destination, zip name |
| `Password` (`password.dfy`) | `password_check`, and the `password_set` loop over a finite sequence of (entry, re-entry) attempts |
| `Bundler` (`bundler.dfy`) | `zipup`: which archives are written, under which names, with which members and password |
| `Pipeline` (`pipeline.dfy`) | `main`'s batch loop, and the entry point that decides `multi` and calls `zipup` |

The directory tree is the state the tool changes. It is the class `Pipeline.ScanTree`, with three fields:

- the listing of the incoming directory;
- the workbooks in ModifiedResults, keyed by path;
- the paths of the files moved to OldResults.

Its methods mirror `main` (`ConvertAll`), one pass of its loop (`ConvertOne`) and the
entry point (`Run`). Each is proved against the value-level functions `BatchResult`,
`ConvertStep` and `ConvertEach`, and the lemmas beside them state what those functions
promise.

`pd.read_csv` is a parameter `read: map<string, Table>`:

- a path missing from the map is an export that cannot be read;
- a table without `Plugin ID` makes `df['Plugin ID']` raise.

Either one ends the whole run at that export, as the uncaught exception does in the
source. The exports already converted stay converted and moved.

## Model

| member | source | states |
|---|---|---|
| Text.EndsWith | nessus_linker.py:169 | `s.endswith(p)` holds exactly when `s` is some text followed by `p` |
| Text.AfterLast | nessus_linker.py:186 | `split(c)[-1]` holds no `c`, is no longer than the text, and is preceded by `c` when it is not the whole text |
| Text.AfterLastSuffix | nessus_linker.py:186 | `split(c)[-1]` is a suffix of the text, so with the above it is the text after the last `c` |
| Text.AfterLastAbsent | nessus_linker.py:186 | a text without `c` is its own `split(c)[-1]` |
| Text.BeforeFirst | nessus_linker.py:194 | `split(c)[0]` is the longest prefix without `c`; it is followed by `c` when it is not the whole text |
| Text.RemoveAll | nessus_linker.py:73 | removing every occurrence of a non-empty pattern never lengthens the text |
| Text.LastIndexOf | nessus_linker.py:138 | the index of the last occurrence of a pattern, with no occurrence after it; `None` exactly when there is no occurrence |
| Text.RemoveAllSuffix | nessus_linker.py:73 | `replace(".xlsx", "")` on a stem that has no `.` followed by `.xlsx` gives the stem back |
| Text.RemoveAllAbsent | nessus_linker.py:73 | `replace(p, "")` on a text without any occurrence of `p` gives the text back |
| Text.RemoveAllPrefix | nessus_linker.py:73 | a leading occurrence of `p` is removed whole and the left-to-right scan continues after it |
| Text.BeforeFirstJoin | nessus_linker.py:194 | the text before the first `c` of `head + c + tail` is `head` when `head` has no `c` |
| Text.AfterLastJoin | nessus_linker.py:225 | the text after the last `c` of `dir + c + name` is `name` when `name` has no `c` |
| Hyperlink.MakeHyperlink | nessus_linker.py:136-138 | the formula is `=HYPERLINK("` + target + `","` + display + `")`, with target `https://tenable.com/plugins/nessus/` + v and display text v; MakeHyperlinkInjective proves it injective and HyperlinkRoundTrip proves the parser gives both arguments back |
| Hyperlink.SplitAtLastSeparator | nessus_linker.py:138 | the two parts joined by `","` give the input back, and the display part holds no `","` at all, so the split is at the last one; `None` exactly when the input holds no `","` |
| Hyperlink.ParseHyperlink | nessus_linker.py:138 | a parsed cell is exactly `=HYPERLINK("` + target + `","` + display + `")` with no `","` in the display text; `None` exactly when the cell lacks the opening or the closing, or holds no `","` between them |
| Hyperlink.MakeHyperlinkInjective | nessus_linker.py:136-138 | distinct plugin ids never give the same formula |
| Hyperlink.ParseWrapped | nessus_linker.py:138 | parsing strips the fixed opening `=HYPERLINK("` and closing `")` and splits what lies between |
| Hyperlink.SplitAtLastSeparatorJoin | nessus_linker.py:138 | when the display text holds no `"`, the last `","` is the one placed before it |
| Hyperlink.IdWithSeparatorNotRecovered | nessus_linker.py:136-138 | an id holding `","` does not come back as the display text of its formula |
| Hyperlink.HyperlinkRoundTrip | nessus_linker.py:136-138 | for an id without `"`, parsing `make_hyperlink(v)` gives back target `https://tenable.com/plugins/nessus/` + v and display text v |
| Records.ColumnIndex | nessus_linker.py:191 | the first position of a column name; `None` exactly when the header lacks it |
| Records.LinkPluginIds | nessus_linker.py:189-191 | fails with `MissingColumn("Plugin ID")` exactly when the header lacks the column. Otherwise: same header, same row count and row lengths; each `Plugin ID` cell becomes `make_hyperlink` of its old value; every other cell is unchanged |
| Records.LinkPluginIdsRoundTrip | nessus_linker.py:191 | when no id holds `"`, the display texts of the rewritten column give back the original table |
| Records.ExampleScanRow | nessus_linker.py:191 | a three-column row with id 19506 gets only its first cell linked |
| Discovery.IsCsv | nessus_linker.py:169 | a path is a CSV export exactly when it is some text followed by `.csv` |
| Discovery.CsvFiles | nessus_linker.py:164-171 | the discovered list is no longer than the listing, and every entry in it ends with `.csv` |
| Discovery.FileFinder | nessus_linker.py:164-171 | the append loop yields exactly `CsvFiles(listing)` |
| Discovery.CsvFilesMembership | nessus_linker.py:169 | a path is discovered exactly when it is in the listing and ends with `.csv` |
| Discovery.CsvFilesIsSubsequence | nessus_linker.py:168-170 | the discovered paths keep their listing order |
| Discovery.CsvFilesIdempotent | nessus_linker.py:164-171 | filtering the discovered list again changes nothing |
| Discovery.UpperCaseExtensionSkipped | nessus_linker.py:169 | the match is case-sensitive: `scan.CSV` is not discovered |
| Naming.ModifiedDir | nessus_linker.py:175 | `ModifiedResults` is a directory directly inside `HOME/ScanResults` |
| Naming.ArchiveDir | nessus_linker.py:176 | `OldResults` is a directory directly inside `HOME/ScanResults` |
| Naming.Basename | nessus_linker.py:186 | the file name holds no `/` and is no longer than the path |
| Naming.Stem | nessus_linker.py:194 | the stem holds neither `/` nor `.` |
| Naming.OutputName | nessus_linker.py:194 | the workbook name has no `/`, ends with `.xlsx` and has no `.` before that suffix |
| Naming.OutputPath | nessus_linker.py:194 | the workbook path is the workbook name directly inside the output directory |
| Naming.ArchivePath | nessus_linker.py:225 | the archive destination is the export's base name directly inside OldResults |
| Naming.ZipStem | nessus_linker.py:73 | removing `.xlsx` never lengthens the name |
| Naming.OutputNameShape | nessus_linker.py:194 | the workbook name is the stem plus `.xlsx`. It has no `/` and no `.` before the suffix. The stem is the part of the base name before its first `.` |
| Naming.BasenameOfJoin | nessus_linker.py:225 | a name without `/` appended to a directory is the base name of the result |
| Naming.ArchivePathKeepsBasename | nessus_linker.py:225 | an export moved to OldResults keeps its base name |
| Naming.OutputPathNames | nessus_linker.py:219 | a recorded workbook path has the workbook name as its base name, and removing `.xlsx` from it gives the stem |
| Naming.StemOfDotted | nessus_linker.py:194 | the stem of `head.tail` is `head` |
| Naming.WorkbooksApartFromArchives | nessus_linker.py:174-176 | a workbook path in ModifiedResults is never the destination of a moved export in OldResults |
| Naming.MovedExportLeavesScanDir | nessus_linker.py:225 | an export listed directly inside `HOME/ScanResults` is moved under its own base name to a path that is not directly inside `HOME/ScanResults` under any name |
| Naming.DottedNameExample | nessus_linker.py:194 | `scan.v2.csv` becomes `scan.xlsx` |
| Naming.OutputPathCollision | nessus_linker.py:194 | exports that agree up to their first `.` are written to the same workbook path |
| Password.PasswordCheck | nessus_linker.py:54-58 | true exactly when the two entries are equal |
| Password.FirstMatch | nessus_linker.py:43-48 | the first attempt whose entries agree, every earlier one disagreeing; `None` exactly when none agrees |
| Password.PasswordSet | nessus_linker.py:39-51 | returns the entry of the first agreeing attempt, after one mismatch per earlier attempt; when none agrees, no password and one mismatch per attempt |
| Bundler.MemberFor | nessus_linker.py:76 | a member is stored under the workbook's base name, which is also the base name of the file it is read from, and has no `/` |
| Bundler.PerFileArchive | nessus_linker.py:70-76 | a per-file archive holds only its workbook and is named after that workbook's name with `.xlsx` removed, plus `.zip` |
| Bundler.PerFileArchives | nessus_linker.py:70-77 | one archive per workbook, in order, each holding only that workbook, all with the same password |
| Bundler.Plan | nessus_linker.py:68-90 | one archive with the typed name holding every workbook, or one archive per workbook; every archive carries the chosen password |
| Bundler.ZipUpResult | nessus_linker.py:61-134 | with protection on and no agreeing attempt, no archive and one mismatch per attempt; otherwise one archive (multi) or one per workbook, all with the first agreeing entry as password, or none when protection is off |
| Bundler.Members | nessus_linker.py:85-89 | one member per workbook |
| Bundler.MembersAt | nessus_linker.py:85-89 | the i-th member is the i-th workbook, read from ModifiedResults and stored under its base name |
| Bundler.ZipEach | nessus_linker.py:70-77 | per-file mode writes one archive per workbook, in order. Each is named by the base name with `.xlsx` removed, plus `.zip`, and holds that one workbook |
| Bundler.ZipAll | nessus_linker.py:81-90 | single-bundle mode writes one archive named by the user, holding every workbook in order |
| Bundler.ZipUp | nessus_linker.py:61-134 | asks for a confirmed password first when protection is on (and stops when none is confirmed), then writes the archives of the chosen mode |
| Bundler.PerFileArchiveOfWorkbook | nessus_linker.py:71-76 | the per-file zip of the workbook written for an export is named by that export's stem and holds the workbook under its own name |
| Bundler.ArcnamesAreBasenames | nessus_linker.py:89 | in both modes, every member of every archive is stored under its base name |
| Bundler.OneArchiveForAnyCount | nessus_linker.py:242-246 | with `multi` set exactly when there is more than one workbook, a non-empty list always yields one archive holding every workbook in order. For one workbook it is named after that workbook; otherwise it takes the typed name |
| Bundler.ProtectedArchivesUseConfirmedPassword | nessus_linker.py:65-75 | with protection on, every archive carries the first confirmed password |
| Pipeline.BatchResult | nessus_linker.py:173-231 | no export found exactly when the list is empty; completed exactly when every export converts, with `conversion_count` and one recorded path per export; otherwise aborted at the first export in loop order that cannot be read (parse error) or lacks `Plugin ID` (schema error) |
| Pipeline.FirstFailure | nessus_linker.py:185-191 | every export before the returned index can be read and has `Plugin ID`; the export at that index cannot be converted |
| Pipeline.OutputPaths | nessus_linker.py:219 | one workbook path per export |
| Pipeline.Without | nessus_linker.py:225 | moving entries away keeps exactly the other entries and never lengthens the listing |
| Pipeline.WorkbookOf | nessus_linker.py:189-218 | the workbook is the `Nessus Results` sheet with the export's header and row count; when no id holds `"`, undoing the links gives back the export's table |
| Pipeline.ConvertStep | nessus_linker.py:185-225 | one pass: the export leaves the incoming listing, its workbook is at its output path (replacing any there) and every other workbook stays, and its archive destination is added |
| Pipeline.ConvertEach | nessus_linker.py:185-225 | the loop only removes entries from the incoming listing and only adds workbooks and archived files |
| Pipeline.ArchivePathsMembership | nessus_linker.py:225 | every moved export has its destination among the archive paths |
| Pipeline.WithoutTwice | nessus_linker.py:225 | moving exports away one after another is moving them all at once |
| Pipeline.FirstFailurePast | nessus_linker.py:185-191 | an export the loop converts lies before the first failure |
| Pipeline.OutputPathsAt | nessus_linker.py:219 | the i-th recorded path is the output path of the i-th discovered export |
| Pipeline.OutputPathsStep | nessus_linker.py:219 | converting one more export appends its workbook path |
| Pipeline.ConvertEachStep | nessus_linker.py:185-225 | converting one more export is one more pass of the loop over the tree |
| Pipeline.ConvertEachMoves | nessus_linker.py:225 | after converting `files`, exactly those exports have left the incoming listing, and the rest keep their order |
| Pipeline.ConvertEachArchives | nessus_linker.py:225 | after converting `files`, OldResults has gained exactly each one's destination |
| Pipeline.ConvertEachWrites | nessus_linker.py:194 | every converted export has a workbook at its output path |
| Pipeline.ConvertEachWorkbook | nessus_linker.py:191-218 | the workbook at an export's output path is the `Nessus Results` sheet of its rewritten table, unless a later export overwrites that path |
| Pipeline.ConvertEachKeepsOthers | nessus_linker.py:194 | a path that is no export's output path keeps what ModifiedResults held there |
| Pipeline.ScanTree.constructor | nessus_linker.py:174-176 | the three locations are `HOME/ScanResults`, `HOME/ScanResults/ModifiedResults` and `HOME/ScanResults/OldResults`, around a listing of names directly inside `HOME/ScanResults`; nothing is converted or archived yet |
| Pipeline.ScanTree.ConvertAll | nessus_linker.py:173-231 | the outcome is `BatchResult` of the discovered exports: none found, completed with one path per export, or aborted at the first failing export. The tree is the initial tree with every export before that point converted |
| Pipeline.ScanTree.ConvertOne | nessus_linker.py:185-225 | a failing export changes nothing and reports a read or a column error. Otherwise the workbook is written at the output path, the export leaves the listing, its destination is archived, and the output path is returned |
| Pipeline.ScanTree.Run | nessus_linker.py:236-252 | runs `main`; zips only when asked and the batch completed, with `multi` set exactly when more than one workbook exists |
| Pipeline.CompletedRun | nessus_linker.py:177-229 | after a completed run: `modified_results[i]` is the i-th export's output path, and `conversion_count == len(modified_results) == len(workbooks)`. Every export has its workbook and its archive destination, and no CSV is left in the incoming listing |
| Pipeline.EmptyRunChangesNothing | nessus_linker.py:227-229 | with no CSV export the run ends with no file converted and the tree unchanged |

## Left out

- CSV parsing and xlsx writing are foreign library code. The reader is a map from path to table, and cells are the strings pandas rendered. pandas type inference is not modelled: an id read as a number and printed back, or an empty cell read as NaN, is out of scope.
- The workbook styling is not modelled (header format, blue column A, rewriting the header row with the same names, lines 196-216). A workbook is its sheet name and its table.
- Zip compression, AES encryption, `setpassword` and the deflate/stored choice (lines 102-109, 118-124) are not modelled: an archive is its path, password and member list.
- The UTF-8 encoding of the password (line 50) is not modelled: the chosen string stands for its bytes.
- `pre_main`'s directory creation, `banner`, every `print`, and the `input()` prompts are left out. The prompts' answers are parameters: the password attempts and the multi-file zip name.
- Line 132 prints the stem of the last workbook where the multi-file zip name is meant. It is print-only, so it is not modelled.
- argparse is not modelled. `-z` and `-p` are the parameters `zip` and `protect` of `Run`.
- The `y`/`n` prompt (lines 236-237) is not modelled: `Run` is the branch after `y`, and `n` changes nothing.
- `sys.exit(0)` when no CSV is found is the outcome `NoCsvFound`, after which nothing is zipped.
- Errors other than a failed read or a missing `Plugin ID` column are not modelled: a failing write, a failing move, or an existing file at the destination.
- `iterdir` is not modelled: its order is whatever the given listing holds, and a directory whose name ends in `.csv` is not told apart from a file.
- The zip files `zipup` writes are returned as values. They are not added to `ScanTree`'s ModifiedResults map.
- Records.LinkPluginIds: only the first column named `Plugin ID` is rewritten. `pd.read_csv` renames a repeated header name (`Plugin ID`, `Plugin ID.1`), so a table it returns never has two such columns and the rule loses nothing; renaming repeated headers is not modelled.
- A row shorter than the header keeps all its cells: the rewrite leaves it unchanged when it lacks the `Plugin ID` cell. `pd.read_csv` pads such a row with NaN (which line 191 would link as `nan`) and rejects a row that is too long. Tables are not required to be rectangular.
- Password.PasswordSet: the source asks again until two entries agree, with no limit. The model reads a finite sequence of attempts, and running out of attempts yields no password (`Unconfirmed` in `zipup`).
- Hyperlink.HyperlinkRoundTrip: assumes the id holds no `"`. `make_hyperlink` does not escape quotes. Some ids holding `"` still parse back, but an id holding `","` does not (IdWithSeparatorNotRecovered), and a spreadsheet would reject the unescaped quote anyway.
