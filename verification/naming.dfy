/**
 * The fixed directory layout under the user's home directory and the names the
 * tool derives from a path: its base name, the workbook it becomes, where the
 * source is archived and what a per-file zip is called.
 */
module Naming {

  import opened Text

  /** `{HOME}/ScanResults`: where the CSV exports are placed. */
  function ScanDir(home: string): string { home + "/ScanResults" }

  /** `{HOME}/ScanResults/ModifiedResults`: the directory `ModifiedResults` inside the scan directory. */
  function ModifiedDir(home: string): (r: string)
    ensures Basename(r) == "ModifiedResults" && r == ScanDir(home) + "/" + Basename(r)
  {
    BasenameOfJoin(ScanDir(home), "ModifiedResults");
    ScanDir(home) + "/" + "ModifiedResults"
  }

  /** `{HOME}/ScanResults/OldResults`: the directory `OldResults` inside the scan directory. */
  function ArchiveDir(home: string): (r: string)
    ensures Basename(r) == "OldResults" && r == ScanDir(home) + "/" + Basename(r)
  {
    BasenameOfJoin(ScanDir(home), "OldResults");
    ScanDir(home) + "/" + "OldResults"
  }

  /** `str(file).split("/")[-1]`. */
  function Basename(path: string): (r: string)
    ensures '/' !in r && |r| <= |path|
  {
    AfterLast(path, '/')
  }

  /** `filename.split(".")[0]`: the base name up to its first dot. */
  function Stem(path: string): (r: string)
    ensures '/' !in r && '.' !in r
  {
    BeforeFirst(Basename(path), '.')
  }

  /** The name of the workbook an export becomes: a plain file name ending in `.xlsx`, with no dot before it. */
  function OutputName(path: string): (r: string)
    ensures '/' !in r && EndsWith(r, ".xlsx") && '.' !in r[..|r| - 5]
  {
    var r := Stem(path) + ".xlsx";
    assert r[..|r| - 5] == Stem(path);
    assert r[|r| - 5..] == ".xlsx";
    r
  }

  /**
   * `f'{final_location}/{filename.split(".")[0]}.xlsx'`, where `final_location`
   * is `ModifiedDir(home)`: the workbook name, directly inside `finalLocation`.
   */
  function OutputPath(finalLocation: string, path: string): (r: string)
    ensures Basename(r) == OutputName(path) && r == finalLocation + "/" + Basename(r)
  {
    BasenameOfJoin(finalLocation, OutputName(path));
    finalLocation + "/" + OutputName(path)
  }

  /**
   * `f'{archive_location}/{filename}'`, where `archive_location` is
   * `ArchiveDir(home)`: the export keeps its base name, directly inside `archiveLocation`.
   */
  function ArchivePath(archiveLocation: string, path: string): (r: string)
    ensures Basename(r) == Basename(path) && r == archiveLocation + "/" + Basename(r)
  {
    BasenameOfJoin(archiveLocation, Basename(path));
    archiveLocation + "/" + Basename(path)
  }

  /** `filename.replace(".xlsx", "")`. */
  function ZipStem(filename: string): (r: string)
    ensures |r| <= |filename|
  {
    RemoveAll(filename, ".xlsx")
  }

  /** The output name is a plain file name: no directory part, no dot before `.xlsx`. */
  lemma OutputNameShape(path: string)
    ensures var n := OutputName(path);
      '/' !in n && n == Stem(path) + ".xlsx" && '.' !in n[..|n| - 5]
      && Stem(path) == Basename(path)[..|Stem(path)|]
      && (|Stem(path)| < |Basename(path)| ==> Basename(path)[|Stem(path)|] == '.')
  {
    var n := OutputName(path);
    assert n[..|n| - 5] == Stem(path);
    assert n[|n| - 5..] == ".xlsx";
    assert forall i :: 0 <= i < |n| - 5 ==> n[i] == Stem(path)[i];
  }

  /** A file name appended to a directory is the base name of the result. */
  lemma BasenameOfJoin(dir: string, name: string)
    requires '/' !in name
    ensures Basename(dir + "/" + name) == name
  {
    AfterLastJoin(dir, '/', name);
  }

  /** An archived export keeps its base name. */
  lemma ArchivePathKeepsBasename(archiveLocation: string, path: string)
    ensures Basename(ArchivePath(archiveLocation, path)) == Basename(path)
  {
    BasenameOfJoin(archiveLocation, Basename(path));
  }

  /**
   * The workbook written for an export is named by that export's stem, and its
   * per-file zip is that stem with `.zip` in place of `.xlsx`.
   */
  lemma OutputPathNames(finalLocation: string, path: string)
    ensures Basename(OutputPath(finalLocation, path)) == OutputName(path)
    ensures ZipStem(Basename(OutputPath(finalLocation, path))) == Stem(path)
  {
    RemoveAllSuffix(Stem(path), ".xlsx");
  }

  /** The stem of a plain file name is what precedes its first dot. */
  lemma StemOfDotted(head: string, tail: string)
    requires '/' !in head && '/' !in tail && '.' !in head
    ensures Stem(head + "." + tail) == head
  {
    var name := head + "." + tail;
    assert '/' !in name;
    AfterLastAbsent(name, '/');
    BeforeFirstJoin(head, '.', tail);
  }

  /** The workbooks `main` writes and the exports it moves never share a path. */
  lemma WorkbooksApartFromArchives(home: string, source: string, other: string)
    ensures OutputPath(ModifiedDir(home), source) != ArchivePath(ArchiveDir(home), other)
  {
    var w, a := OutputPath(ModifiedDir(home), source), ArchivePath(ArchiveDir(home), other);
    var at := |home| + |"/ScanResults/"|;
    assert w[at] == ModifiedDir(home)[at] == 'M';
    assert a[at] == ArchiveDir(home)[at] == 'O';
  }

  /**
   * An export listed directly inside the scan directory is moved to OldResults
   * under its own name, so it leaves the scan directory and is not found again.
   */
  lemma MovedExportLeavesScanDir(home: string, x: string)
    requires x == ScanDir(home) + "/" + Basename(x)
    ensures Basename(ArchivePath(ArchiveDir(home), x)) == Basename(x)
    ensures forall name :: '/' !in name ==> ArchivePath(ArchiveDir(home), x) != ScanDir(home) + "/" + name
  {
    var dest := ArchivePath(ArchiveDir(home), x);
    assert |ArchiveDir(home)| == |ScanDir(home)| + 11;
    assert |dest| == |x| + 11;
    forall name | '/' !in name
      ensures dest != ScanDir(home) + "/" + name
    {
      BasenameOfJoin(ScanDir(home), name);
    }
  }

  /** A dotted export name keeps only what precedes the first dot. */
  lemma DottedNameExample(originalLocation: string)
    ensures Stem(originalLocation + "/" + "scan.v2.csv") == "scan"
    ensures OutputName(originalLocation + "/" + "scan.v2.csv") == "scan" + ".xlsx"
  {
    var path := originalLocation + "/" + "scan.v2.csv";
    BasenameOfJoin(originalLocation, "scan.v2.csv");
    assert "scan.v2.csv" == "scan" + ['.'] + "v2.csv";
    BeforeFirstJoin("scan", '.', "v2.csv");
  }

  /**
   * Exports whose names agree up to the first dot give the same workbook path,
   * so the later one's workbook replaces the earlier one's.
   */
  lemma OutputPathCollision(finalLocation: string, head: string, tail1: string, tail2: string)
    requires '/' !in head && '.' !in head && '/' !in tail1 && '/' !in tail2
    ensures OutputPath(finalLocation, head + "." + tail1) == OutputPath(finalLocation, head + "." + tail2)
  {
    StemOfDotted(head, tail1);
    StemOfDotted(head, tail2);
  }
}
