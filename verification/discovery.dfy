/**
 * The file discoverer: the CSV exports among the entries of the ScanResults
 * directory, in the order the directory listing yields them.
 */
module Discovery {

  import opened Text

  /** `str(file).endswith('.csv')`: the path is some text followed by `.csv`, exactly and case-sensitively. */
  predicate IsCsv(path: string)
    ensures IsCsv(path) <==> exists stem :: path == stem + ".csv"
  {
    EndsWith(path, ".csv")
  }

  /** The entries of `listing` that are CSV files, in listing order. */
  function CsvFiles(listing: seq<string>): (r: seq<string>)
    ensures |r| <= |listing|
    ensures forall x :: x in r ==> IsCsv(x)
  {
    if listing == [] then []
    else
      var rest := CsvFiles(listing[..|listing| - 1]);
      var last := listing[|listing| - 1];
      if IsCsv(last) then rest + [last] else rest
  }

  /** `a` is `b` with some entries left out and the rest in their order. */
  ghost predicate IsSubsequence(a: seq<string>, b: seq<string>)
    decreases |b|
  {
    a == [] ||
    (b != [] &&
      ((a[|a| - 1] == b[|b| - 1] && IsSubsequence(a[..|a| - 1], b[..|b| - 1]))
       || IsSubsequence(a, b[..|b| - 1])))
  }

  /** `file_finder`: walks the listing once and appends each `.csv` entry. */
  method FileFinder(listing: seq<string>) returns (workbooks: seq<string>)
    ensures workbooks == CsvFiles(listing)
  {
    workbooks := [];
    for i := 0 to |listing|
      invariant workbooks == CsvFiles(listing[..i])
    {
      var file := listing[i];
      assert listing[..i + 1][..i] == listing[..i];
      if IsCsv(file) {
        workbooks := workbooks + [file];
      }
    }
    assert listing[..|listing|] == listing;
  }

  /** An entry is discovered exactly when it is in the listing and ends with `.csv`. */
  lemma {:induction false} CsvFilesMembership(listing: seq<string>, x: string)
    ensures x in CsvFiles(listing) <==> x in listing && IsCsv(x)
    decreases |listing|
  {
    if listing != [] {
      var init := listing[..|listing| - 1];
      CsvFilesMembership(init, x);
      assert listing == init + [listing[|listing| - 1]];
    }
  }

  /** Discovery keeps the listing order. */
  lemma {:induction false} CsvFilesIsSubsequence(listing: seq<string>)
    ensures IsSubsequence(CsvFiles(listing), listing)
    decreases |listing|
  {
    if listing != [] {
      var init := listing[..|listing| - 1];
      CsvFilesIsSubsequence(init);
      var r := CsvFiles(listing);
      if IsCsv(listing[|listing| - 1]) {
        assert r[..|r| - 1] == CsvFiles(init);
      } else if r != [] {
        assert r == CsvFiles(init);
      }
    }
  }

  /** Filtering the discovered files again changes nothing. */
  lemma {:induction false} CsvFilesIdempotent(listing: seq<string>)
    ensures CsvFiles(CsvFiles(listing)) == CsvFiles(listing)
    decreases |listing|
  {
    if listing != [] {
      var init := listing[..|listing| - 1];
      CsvFilesIdempotent(init);
      var r := CsvFiles(listing);
      if IsCsv(listing[|listing| - 1]) {
        assert r[..|r| - 1] == CsvFiles(init);
      }
    }
  }

  /** The match is case-sensitive: an upper-case `.CSV` export is not discovered. */
  lemma UpperCaseExtensionSkipped()
    ensures CsvFiles(["/home/u/ScanResults/a.CSV", "/home/u/ScanResults/b.csv"]) == ["/home/u/ScanResults/b.csv"]
  {
    var listing := ["/home/u/ScanResults/a.CSV", "/home/u/ScanResults/b.csv"];
    assert !IsCsv(listing[0]) by {
      assert listing[0][|listing[0]| - 4..] == ".CSV";
    }
    assert IsCsv(listing[1]) by {
      assert listing[1][|listing[1]| - 4..] == ".csv";
    }
    assert listing[..1] == [listing[0]];
    assert [listing[0]][..0] == [];
  }
}
