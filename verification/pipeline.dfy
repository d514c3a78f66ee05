/**
 * The batch pipeline of the tool: `main` converts every discovered export in
 * turn (rewrite, write the workbook, archive the source), and the entry point
 * then optionally bundles the workbooks. The directory tree under the user's
 * home directory is the state it changes.
 */
module Pipeline {

  import opened Wrappers
  import opened Text
  import opened Records
  import opened Discovery
  import opened Naming
  import opened Password
  import opened Bundler

  /** The single sheet of every workbook. */
  const SheetName := "Nessus Results"

  /** A written workbook: its sheet name and the table on that sheet. */
  datatype Workbook = Workbook(sheet: string, table: Table)

  /** What stops the batch: `read_csv` failing, or the table lacking `Plugin ID`. */
  datatype BatchError = ParseError(file: string) | SchemaError(file: string)

  /**
   * How `main` ends: no export found (exit status 0), every export converted
   * (`modified_results` and `conversion_count`), or an exception that ends the
   * whole run at one export.
   */
  datatype BatchOutcome =
    | NoCsvFound
    | Completed(modifiedResults: seq<string>, conversionCount: nat)
    | Aborted(error: BatchError)

  /** `read_csv` gives a table for `file` and that table has a `Plugin ID` column. */
  predicate Convertible(read: map<string, Table>, file: string)
  {
    file in read && PluginId in read[file].header
  }

  /** The index of the first export that cannot be converted, or `|files|`. */
  function FirstFailure(files: seq<string>, read: map<string, Table>): (k: nat)
    ensures k <= |files|
    ensures forall j :: 0 <= j < k ==> Convertible(read, files[j])
    ensures k < |files| ==> !Convertible(read, files[k])
  {
    if files == [] || !Convertible(read, files[0]) then 0
    else FirstFailure(files[1..], read) + 1
  }

  /** The exports converted and moved before the run ends. */
  function Processed(files: seq<string>, read: map<string, Table>): seq<string>
  {
    files[..FirstFailure(files, read)]
  }

  /** The workbook paths of `files`, in order. */
  function OutputPaths(finalLocation: string, files: seq<string>): (r: seq<string>)
    ensures |r| == |files|
  {
    if files == [] then []
    else OutputPaths(finalLocation, files[..|files| - 1]) + [OutputPath(finalLocation, files[|files| - 1])]
  }

  /**
   * How `main` ends on the discovered exports `files`: no export found, every
   * export converted with one path per export, or stopped at the first export
   * that cannot be read (a parse error) or lacks `Plugin ID` (a schema error).
   */
  function BatchResult(finalLocation: string, files: seq<string>, read: map<string, Table>): (r: BatchOutcome)
    ensures r.NoCsvFound? <==> files == []
    ensures r.Completed? <==> files != [] && forall j :: 0 <= j < |files| ==> Convertible(read, files[j])
    ensures r.Completed? ==> r.conversionCount == |r.modifiedResults| == |files|
    ensures r.Aborted? ==> r.error.file in files && !Convertible(read, r.error.file)
    ensures r.Aborted? ==> r.error.file == files[FirstFailure(files, read)]
    ensures r.Aborted? ==> (r.error.ParseError? <==> r.error.file !in read)
  {
    if files == [] then NoCsvFound
    else
      var k := FirstFailure(files, read);
      if k == |files| then Completed(OutputPaths(finalLocation, files), |files|)
      else if files[k] !in read then Aborted(ParseError(files[k]))
      else Aborted(SchemaError(files[k]))
  }

  /** The listing `s` after the entries in `gone` were moved away. */
  function Without(s: seq<string>, gone: seq<string>): (r: seq<string>)
    ensures |r| <= |s|
    ensures forall x :: x in r <==> x in s && x !in gone
    ensures gone == [] ==> r == s
  {
    if s == [] then []
    else (if s[0] in gone then [] else [s[0]]) + Without(s[1..], gone)
  }

  /** The archive destinations of `files`. */
  function ArchivePaths(archiveLocation: string, files: seq<string>): set<string>
  {
    if files == [] then {}
    else ArchivePaths(archiveLocation, files[..|files| - 1]) + {ArchivePath(archiveLocation, files[|files| - 1])}
  }

  /** Every export of `files` has its archive destination among `ArchivePaths`. */
  lemma {:induction false} ArchivePathsMembership(archiveLocation: string, files: seq<string>, f: string)
    requires f in files
    ensures ArchivePath(archiveLocation, f) in ArchivePaths(archiveLocation, files)
    decreases |files|
  {
    if f != files[|files| - 1] {
      assert files == files[..|files| - 1] + [files[|files| - 1]];
      ArchivePathsMembership(archiveLocation, files[..|files| - 1], f);
    }
  }

  /**
   * The workbook `main` writes for a convertible export: the `Nessus Results`
   * sheet holding the rewritten table, from which undoing the links gives back
   * the export's table when no id holds a double quote.
   */
  function WorkbookOf(t: Table): (r: Workbook)
    requires PluginId in t.header
    ensures r.sheet == SheetName && r.table.header == t.header && |r.table.rows| == |t.rows|
    ensures QuoteFreeIds(t) ==> UnlinkPluginIds(r.table) == Some(t)
  {
    assert QuoteFreeIds(t) ==> UnlinkPluginIds(LinkPluginIds(t).value) == Some(t) by {
      if QuoteFreeIds(t) {
        LinkPluginIdsRoundTrip(t);
      }
    }
    Workbook(SheetName, LinkPluginIds(t).value)
  }

  /**
   * The ScanResults tree as a value: the entries of the incoming directory in
   * listing order, the workbooks in ModifiedResults by path and the paths of the
   * files in OldResults.
   */
  datatype Tree = Tree(incoming: seq<string>, converted: map<string, Workbook>, archived: set<string>)

  /**
   * One pass of `main`'s loop over an export it can convert: the export leaves
   * the incoming listing, its workbook is written at its output path (replacing
   * any workbook there) and its archive destination is added to OldResults.
   */
  function ConvertStep(t: Tree, finalLocation: string, archiveLocation: string,
                       file: string, read: map<string, Table>): (r: Tree)
    requires Convertible(read, file)
    ensures forall x :: x in r.incoming <==> x in t.incoming && x != file
    ensures r.converted.Keys == t.converted.Keys + {OutputPath(finalLocation, file)}
    ensures r.converted[OutputPath(finalLocation, file)] == WorkbookOf(read[file])
    ensures forall p :: p in t.converted && p != OutputPath(finalLocation, file) ==> r.converted[p] == t.converted[p]
    ensures r.archived == t.archived + {ArchivePath(archiveLocation, file)}
  {
    Tree(Without(t.incoming, [file]),
         t.converted[OutputPath(finalLocation, file) := WorkbookOf(read[file])],
         t.archived + {ArchivePath(archiveLocation, file)})
  }

  /**
   * The tree after `main`'s loop passed over `files` in order; an export it
   * cannot convert changes nothing. The loop only removes entries from the
   * incoming listing and only adds workbooks and archived files.
   */
  function ConvertEach(t: Tree, finalLocation: string, archiveLocation: string,
                       files: seq<string>, read: map<string, Table>): (r: Tree)
    ensures forall x :: x in r.incoming ==> x in t.incoming
    ensures t.converted.Keys <= r.converted.Keys && t.archived <= r.archived
  {
    if files == [] then t
    else
      var before := ConvertEach(t, finalLocation, archiveLocation, files[..|files| - 1], read);
      var last := files[|files| - 1];
      if Convertible(read, last) then ConvertStep(before, finalLocation, archiveLocation, last, read) else before
  }

  /** Moving entries away in two steps is moving them all at once. */
  lemma {:induction false} WithoutTwice(s: seq<string>, a: seq<string>, b: seq<string>)
    ensures Without(Without(s, a), b) == Without(s, a + b)
    decreases |s|
  {
    if s != [] {
      var h, t := s[0], s[1..];
      WithoutTwice(t, a, b);
      assert Without(s, a + b) == (if h in a + b then [] else [h]) + Without(t, a + b);
      if h in a {
        assert Without(s, a) == Without(t, a);
      } else {
        var w := [h] + Without(t, a);
        assert Without(s, a) == w;
        assert w[1..] == Without(t, a);
        assert Without(w, b) == (if h in b then [] else [h]) + Without(t, a + b);
      }
    }
  }

  /** A non-empty sequence is its prefix followed by its last entry. */
  lemma InitLast(files: seq<string>)
    requires files != []
    ensures files[..|files| - 1] + [files[|files| - 1]] == files
  {
  }

  /** The loop passes an export it could convert without reaching the first failure. */
  lemma FirstFailurePast(files: seq<string>, read: map<string, Table>, i: nat)
    requires i < |files| && Convertible(read, files[i]) && FirstFailure(files, read) >= i
    ensures FirstFailure(files, read) > i
  {
  }

  /** The `i`-th workbook path is the output path of the `i`-th export. */
  lemma {:induction false} OutputPathsAt(finalLocation: string, files: seq<string>, i: nat)
    requires i < |files|
    ensures OutputPaths(finalLocation, files)[i] == OutputPath(finalLocation, files[i])
    decreases |files|
  {
    if i < |files| - 1 {
      OutputPathsAt(finalLocation, files[..|files| - 1], i);
    }
  }

  /** One more converted export adds its workbook path at the end. */
  lemma OutputPathsStep(finalLocation: string, files: seq<string>, i: nat)
    requires i < |files|
    ensures OutputPaths(finalLocation, files[..i + 1]) == OutputPaths(finalLocation, files[..i]) + [OutputPath(finalLocation, files[i])]
  {
    assert files[..i + 1][..i] == files[..i];
  }

  /** One more converted export is one more pass of the loop. */
  lemma ConvertEachStep(t: Tree, finalLocation: string, archiveLocation: string,
                        files: seq<string>, read: map<string, Table>, i: nat)
    requires i < |files| && Convertible(read, files[i])
    ensures ConvertEach(t, finalLocation, archiveLocation, files[..i + 1], read)
      == ConvertStep(ConvertEach(t, finalLocation, archiveLocation, files[..i], read), finalLocation, archiveLocation, files[i], read)
  {
    assert files[..i + 1][..i] == files[..i];
  }

  /**
   * After the loop converted every export of `files`, exactly those exports have
   * left the incoming listing, which keeps its order.
   */
  lemma {:induction false} ConvertEachMoves(t: Tree, finalLocation: string, archiveLocation: string,
                                            files: seq<string>, read: map<string, Table>)
    requires forall j :: 0 <= j < |files| ==> Convertible(read, files[j])
    ensures ConvertEach(t, finalLocation, archiveLocation, files, read).incoming == Without(t.incoming, files)
    decreases |files|
  {
    if files != [] {
      var init, last := files[..|files| - 1], files[|files| - 1];
      var before := ConvertEach(t, finalLocation, archiveLocation, init, read);
      assert ConvertEach(t, finalLocation, archiveLocation, files, read).incoming == Without(before.incoming, [last]);
      ConvertEachMoves(t, finalLocation, archiveLocation, init, read);
      WithoutTwice(t.incoming, init, [last]);
      InitLast(files);
    }
  }

  /** After the loop converted every export of `files`, OldResults has gained the archive destination of each. */
  lemma {:induction false} ConvertEachArchives(t: Tree, finalLocation: string, archiveLocation: string,
                                               files: seq<string>, read: map<string, Table>)
    requires forall j :: 0 <= j < |files| ==> Convertible(read, files[j])
    ensures ConvertEach(t, finalLocation, archiveLocation, files, read).archived == t.archived + ArchivePaths(archiveLocation, files)
    decreases |files|
  {
    if files != [] {
      var init, last := files[..|files| - 1], files[|files| - 1];
      var before := ConvertEach(t, finalLocation, archiveLocation, init, read);
      assert ConvertEach(t, finalLocation, archiveLocation, files, read).archived
        == before.archived + {ArchivePath(archiveLocation, last)};
      ConvertEachArchives(t, finalLocation, archiveLocation, init, read);
    }
  }

  /** Every convertible export of `files` has a workbook at its output path. */
  lemma {:induction false} ConvertEachWrites(t: Tree, finalLocation: string, archiveLocation: string,
                                             files: seq<string>, read: map<string, Table>, i: nat)
    requires i < |files| && Convertible(read, files[i])
    ensures OutputPath(finalLocation, files[i]) in ConvertEach(t, finalLocation, archiveLocation, files, read).converted
    decreases |files|
  {
    if i < |files| - 1 {
      ConvertEachWrites(t, finalLocation, archiveLocation, files[..|files| - 1], read, i);
    }
  }

  /**
   * The workbook at an export's output path holds that export's rewritten table
   * (same header, same rows, hyperlinked ids), unless a later export has the same
   * output path, which then overwrites it.
   */
  lemma {:induction false} ConvertEachWorkbook(t: Tree, finalLocation: string, archiveLocation: string,
                                               files: seq<string>, read: map<string, Table>, i: nat)
    requires i < |files| && Convertible(read, files[i])
    requires forall j :: i < j < |files| ==> OutputPath(finalLocation, files[j]) != OutputPath(finalLocation, files[i])
    ensures var converted := ConvertEach(t, finalLocation, archiveLocation, files, read).converted;
      && OutputPath(finalLocation, files[i]) in converted
      && converted[OutputPath(finalLocation, files[i])] == WorkbookOf(read[files[i]])
      && converted[OutputPath(finalLocation, files[i])].sheet == SheetName
      && converted[OutputPath(finalLocation, files[i])].table.header == read[files[i]].header
    decreases |files|
  {
    var init, last := files[..|files| - 1], files[|files| - 1];
    var before := ConvertEach(t, finalLocation, archiveLocation, init, read);
    var after := ConvertEach(t, finalLocation, archiveLocation, files, read);
    var p := OutputPath(finalLocation, files[i]);
    if i < |files| - 1 {
      ConvertEachWorkbook(t, finalLocation, archiveLocation, init, read, i);
      assert init[i] == files[i];
      assert p in before.converted && before.converted[p] == WorkbookOf(read[files[i]]);
      if Convertible(read, last) {
        assert OutputPath(finalLocation, last) != p;
        assert after.converted == before.converted[OutputPath(finalLocation, last) := WorkbookOf(read[last])];
      } else {
        assert after == before;
      }
    } else {
      assert after.converted == before.converted[p := WorkbookOf(read[files[i]])];
    }
    assert after.converted[p] == WorkbookOf(read[files[i]]);
  }

  /** A path that is no export's output path keeps what ModifiedResults held there. */
  lemma {:induction false} ConvertEachKeepsOthers(t: Tree, finalLocation: string, archiveLocation: string,
                                                  files: seq<string>, read: map<string, Table>, path: string)
    requires forall j :: 0 <= j < |files| ==> OutputPath(finalLocation, files[j]) != path
    ensures var converted := ConvertEach(t, finalLocation, archiveLocation, files, read).converted;
      && (path in converted <==> path in t.converted)
      && (path in t.converted ==> converted[path] == t.converted[path])
    decreases |files|
  {
    if files != [] {
      ConvertEachKeepsOthers(t, finalLocation, archiveLocation, files[..|files| - 1], read, path);
    }
  }

  /**
   * The ScanResults tree under the user's home directory, with the three
   * locations `main` names. `incoming` is the listing of `originalLocation`, so
   * every entry is a name directly inside it; an entry moved to `archiveLocation`
   * keeps its name but is no longer directly inside it (MovedExportLeavesScanDir).
   */
  class ScanTree {
    const home: string
    const originalLocation: string
    const finalLocation: string
    const archiveLocation: string
    var incoming: seq<string>
    var converted: map<string, Workbook>
    var archived: set<string>

    constructor (home: string, incoming: seq<string>)
      requires forall x :: x in incoming ==> x == ScanDir(home) + "/" + Basename(x)
      ensures this.home == home && originalLocation == ScanDir(home)
      ensures finalLocation == ModifiedDir(home) && archiveLocation == ArchiveDir(home)
      ensures this.incoming == incoming && converted == map[] && archived == {}
    {
      this.home := home;
      originalLocation := ScanDir(home);
      finalLocation := ModifiedDir(home);
      archiveLocation := ArchiveDir(home);
      this.incoming := incoming;
      converted := map[];
      archived := {};
    }

    /** The contents of the tree as a value. */
    ghost function State(): Tree
      reads this
    {
      Tree(incoming, converted, archived)
    }

    /**
     * `main`: discovers the exports, then for each in turn reads it, rewrites its
     * `Plugin ID` column, writes the workbook, records its path, counts it and moves
     * the export to OldResults. The first export that cannot be read or lacks the
     * column ends the run; the ones before it stay converted and moved.
     */
    method ConvertAll(read: map<string, Table>) returns (outcome: BatchOutcome)
      modifies this
      ensures outcome == BatchResult(finalLocation, CsvFiles(old(incoming)), read)
      ensures State() == ConvertEach(old(State()), finalLocation, archiveLocation, Processed(CsvFiles(old(incoming)), read), read)
    {
      var conversionCount := 0;
      var modifiedResults: seq<string> := [];
      var workbooks := FileFinder(incoming);
      if |workbooks| == 0 {
        return NoCsvFound;
      }
      ghost var start := State();
      for i := 0 to |workbooks|
        invariant conversionCount == i && modifiedResults == OutputPaths(finalLocation, workbooks[..i])
        invariant FirstFailure(workbooks, read) >= i
        invariant State() == ConvertEach(start, finalLocation, archiveLocation, workbooks[..i], read)
      {
        var file := workbooks[i];
        var step := ConvertOne(file, read);
        if step.Failure? {
          return Aborted(step.error);
        }
        FirstFailurePast(workbooks, read, i);
        OutputPathsStep(finalLocation, workbooks, i);
        ConvertEachStep(start, finalLocation, archiveLocation, workbooks, read, i);
        modifiedResults := modifiedResults + [step.value];
        conversionCount := conversionCount + 1;
      }
      assert workbooks[..|workbooks|] == workbooks;
      return Completed(modifiedResults, conversionCount);
    }

    /**
     * One pass of `main`'s loop: read the export, rewrite its `Plugin ID` column,
     * write the workbook, then move the export to OldResults. Reading or the
     * column lookup failing raises before anything changes.
     */
    method ConvertOne(file: string, read: map<string, Table>) returns (result: Result<string, BatchError>)
      modifies this
      ensures !Convertible(read, file) ==>
        unchanged(this) && result == Failure(if file !in read then ParseError(file) else SchemaError(file))
      ensures Convertible(read, file) ==>
        && result == Success(OutputPath(finalLocation, file))
        && State() == ConvertStep(old(State()), finalLocation, archiveLocation, file, read)
    {
      var filename := Basename(file);
      if file !in read {
        return Failure(ParseError(file));
      }
      var linked := LinkPluginIds(read[file]);
      if linked.Failure? {
        return Failure(SchemaError(file));
      }
      var finalPath := finalLocation + "/" + BeforeFirst(filename, '.') + ".xlsx";
      assert finalPath == OutputPath(finalLocation, file);
      converted := converted[finalPath := Workbook(SheetName, linked.value)];
      incoming := Without(incoming, [file]);
      archived := archived + {archiveLocation + "/" + filename};
      result := Success(finalPath);
    }

    /**
     * The entry point after the user answered `y`: `main`, then, when zipping was
     * asked for and workbooks exist, `zipup` with `multi` set when there is more
     * than one workbook.
     */
    method Run(read: map<string, Table>, zip: bool, protect: bool, attempts: seq<Attempt>, bundleName: string)
      returns (outcome: BatchOutcome, bundle: Option<BundleOutcome>)
      modifies this
      ensures outcome == BatchResult(finalLocation, CsvFiles(old(incoming)), read)
      ensures State() == ConvertEach(old(State()), finalLocation, archiveLocation, Processed(CsvFiles(old(incoming)), read), read)
      ensures bundle == if zip && outcome.Completed? then
          Some(ZipUpResult(ModifiedDir(home), outcome.modifiedResults, |outcome.modifiedResults| > 1, protect, attempts, bundleName))
        else None
    {
      outcome := ConvertAll(read);
      bundle := None;
      if zip && outcome.Completed? {
        var workbooks := outcome.modifiedResults;
        if |workbooks| > 0 {
          var multi: bool;
          if |workbooks| > 1 {
            multi := true;
          } else {
            multi := false;
          }
          var zipped := ZipUp(home, workbooks, multi, protect, attempts, bundleName);
          bundle := Some(zipped);
        }
      }
    }
  }

  /**
   * After a completed run: one workbook path per export in discovery order,
   * `conversion_count` equals their number, every export has left the incoming
   * listing and no CSV export is left there, every export has its workbook and
   * its archive destination.
   */
  lemma CompletedRun(t: Tree, finalLocation: string, archiveLocation: string, read: map<string, Table>)
    requires BatchResult(finalLocation, CsvFiles(t.incoming), read).Completed?
    ensures var files := CsvFiles(t.incoming);
      var outcome := BatchResult(finalLocation, files, read);
      var after := ConvertEach(t, finalLocation, archiveLocation, Processed(files, read), read);
      && files != [] && Processed(files, read) == files
      && outcome.conversionCount == |outcome.modifiedResults| == |files|
      && (forall i :: 0 <= i < |files| ==> outcome.modifiedResults[i] == OutputPath(finalLocation, files[i]))
      && (forall i :: 0 <= i < |files| ==> outcome.modifiedResults[i] in after.converted)
      && (forall x :: x in after.incoming <==> x in t.incoming && !IsCsv(x))
      && (forall f :: f in files ==> ArchivePath(archiveLocation, f) in after.archived)
  {
    var files := CsvFiles(t.incoming);
    assert files[..|files|] == files;
    ConvertEachMoves(t, finalLocation, archiveLocation, files, read);
    ConvertEachArchives(t, finalLocation, archiveLocation, files, read);
    forall x ensures x in Without(t.incoming, files) <==> x in t.incoming && !IsCsv(x) {
      CsvFilesMembership(t.incoming, x);
    }
    forall f | f in files ensures ArchivePath(archiveLocation, f) in ArchivePaths(archiveLocation, files) {
      ArchivePathsMembership(archiveLocation, files, f);
    }
    forall i | 0 <= i < |files|
      ensures OutputPaths(finalLocation, files)[i] == OutputPath(finalLocation, files[i])
      ensures OutputPath(finalLocation, files[i]) in ConvertEach(t, finalLocation, archiveLocation, files, read).converted
    {
      OutputPathsAt(finalLocation, files, i);
      ConvertEachWrites(t, finalLocation, archiveLocation, files, read, i);
    }
  }

  /** A run that finds no export changes nothing. */
  lemma EmptyRunChangesNothing(t: Tree, finalLocation: string, archiveLocation: string, read: map<string, Table>)
    requires CsvFiles(t.incoming) == []
    ensures BatchResult(finalLocation, CsvFiles(t.incoming), read) == NoCsvFound
    ensures ConvertEach(t, finalLocation, archiveLocation, Processed(CsvFiles(t.incoming), read), read) == t
  {
  }
}
