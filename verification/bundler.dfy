/**
 * The bundler: the zip archives made from the converted workbooks, either one per
 * workbook or one holding all of them, each optionally protected by a confirmed
 * password. Only names and member lists are modelled, not the archive bytes.
 */
module Bundler {

  import opened Wrappers
  import opened Naming
  import opened Password

  /** One file placed in an archive: where it is read from and its name inside. */
  datatype Member = Member(source: string, arcname: string)

  /** One archive written: its path, its password (`None` for a plain zip) and its members in order. */
  datatype Archive = Archive(path: string, password: Option<string>, members: seq<Member>)

  /** What `zipup` produced, or that no password was ever confirmed. */
  datatype BundleOutcome = Bundled(archives: seq<Archive>) | Unconfirmed(mismatches: nat)

  /**
   * `zf.write(f'{modified_results}/{filename}', arcname=filename)`: the member is
   * stored under the workbook's base name, which is also the name of the file it
   * is read from, and has no directory part.
   */
  function MemberFor(modifiedResults: string, workbook: string): (r: Member)
    ensures r.arcname == Basename(workbook) && Basename(r.source) == r.arcname && '/' !in r.arcname
  {
    BasenameOfJoin(modifiedResults, Basename(workbook));
    Member(modifiedResults + "/" + Basename(workbook), Basename(workbook))
  }

  /**
   * The per-file archive of one workbook, `f'{modified_results}/{wb2}.zip'`: it
   * holds that workbook alone and is named after it, with `.xlsx` removed.
   */
  function PerFileArchive(modifiedResults: string, workbook: string, password: Option<string>): (r: Archive)
    ensures r.password == password && r.members == [MemberFor(modifiedResults, workbook)]
    ensures r.path == modifiedResults + "/" + ZipStem(r.members[0].arcname) + ".zip"
  {
    Archive(modifiedResults + "/" + ZipStem(Basename(workbook)) + ".zip", password, [MemberFor(modifiedResults, workbook)])
  }

  /** The members added for `workbooks`, in order. */
  function Members(modifiedResults: string, workbooks: seq<string>): (r: seq<Member>)
    ensures |r| == |workbooks|
  {
    if workbooks == [] then []
    else Members(modifiedResults, workbooks[..|workbooks| - 1]) + [MemberFor(modifiedResults, workbooks[|workbooks| - 1])]
  }

  /** The `i`-th member is the `i`-th workbook. */
  lemma {:induction false} MembersAt(modifiedResults: string, workbooks: seq<string>, i: nat)
    requires i < |workbooks|
    ensures Members(modifiedResults, workbooks)[i] == MemberFor(modifiedResults, workbooks[i])
    decreases |workbooks|
  {
    if i < |workbooks| - 1 {
      MembersAt(modifiedResults, workbooks[..|workbooks| - 1], i);
    }
  }

  /** The per-file archives of `workbooks`: one per workbook, in order, each holding only that workbook. */
  function PerFileArchives(modifiedResults: string, workbooks: seq<string>, password: Option<string>): (r: seq<Archive>)
    ensures |r| == |workbooks|
    ensures forall i :: 0 <= i < |r| ==> r[i].members == [MemberFor(modifiedResults, workbooks[i])] && r[i].password == password
  {
    seq(|workbooks|, i requires 0 <= i < |workbooks| => PerFileArchive(modifiedResults, workbooks[i], password))
  }

  /**
   * The archives for one mode: one archive with the typed name holding every
   * workbook, or one archive per workbook; all carry the same password.
   */
  function Plan(modifiedResults: string, workbooks: seq<string>, multi: bool, password: Option<string>, bundleName: string)
    : (r: seq<Archive>)
    ensures |r| == if multi then 1 else |workbooks|
    ensures forall a :: a in r ==> a.password == password
    ensures multi ==> r[0].path == modifiedResults + "/" + bundleName + ".zip" && |r[0].members| == |workbooks|
  {
    if multi then [Archive(modifiedResults + "/" + bundleName + ".zip", password, Members(modifiedResults, workbooks))]
    else PerFileArchives(modifiedResults, workbooks, password)
  }

  /**
   * What `zipup` produces: with protection and no agreeing attempt, nothing but
   * the mismatches; otherwise the plan of the chosen mode, every archive carrying
   * the first agreeing entry when protection is on and no password when it is off.
   */
  function ZipUpResult(modifiedResults: string, workbooks: seq<string>, multi: bool, protect: bool,
                       attempts: seq<Attempt>, bundleName: string): (r: BundleOutcome)
    ensures r.Unconfirmed? <==> protect && FirstMatch(attempts).None?
    ensures r.Unconfirmed? ==> r.mismatches == |attempts|
    ensures r.Bundled? ==> |r.archives| == if multi then 1 else |workbooks|
    ensures r.Bundled? ==> forall a :: a in r.archives ==>
      a.password == if protect then Some(attempts[FirstMatch(attempts).value].entered) else None
  {
    if !protect then Bundled(Plan(modifiedResults, workbooks, multi, None, bundleName))
    else match FirstMatch(attempts)
      case None => Unconfirmed(|attempts|)
      case Some(k) => Bundled(Plan(modifiedResults, workbooks, multi, Some(attempts[k].entered), bundleName))
  }

  /** The `multi == False` branch of `zipup`: one archive per workbook, each written and closed in turn. */
  method ZipEach(modifiedResults: string, workbooks: seq<string>, password: Option<string>) returns (archives: seq<Archive>)
    ensures archives == PerFileArchives(modifiedResults, workbooks, password)
  {
    archives := [];
    for i := 0 to |workbooks|
      invariant |archives| == i
      invariant forall j :: 0 <= j < i ==> archives[j] == PerFileArchive(modifiedResults, workbooks[j], password)
    {
      var filename := Basename(workbooks[i]);
      var wb2 := ZipStem(filename);
      archives := archives + [Archive(modifiedResults + "/" + wb2 + ".zip", password,
                                      [Member(modifiedResults + "/" + filename, filename)])];
    }
  }

  /** The `multi == True` branch of `zipup`: one archive opened once, every workbook added in order. */
  method ZipAll(modifiedResults: string, workbooks: seq<string>, password: Option<string>, bundleName: string)
    returns (archive: Archive)
    ensures archive == Archive(modifiedResults + "/" + bundleName + ".zip", password, Members(modifiedResults, workbooks))
  {
    var members: seq<Member> := [];
    for i := 0 to |workbooks|
      invariant members == Members(modifiedResults, workbooks[..i])
    {
      var filename := Basename(workbooks[i]);
      members := members + [Member(modifiedResults + "/" + filename, filename)];
      assert workbooks[..i + 1][..i] == workbooks[..i];
    }
    assert workbooks[..|workbooks|] == workbooks;
    archive := Archive(modifiedResults + "/" + bundleName + ".zip", password, members);
  }

  /**
   * `zipup`: asks for the password first when protection is on, then writes the
   * archives of the chosen mode.
   */
  method ZipUp(home: string, workbooks: seq<string>, multi: bool, protect: bool,
               attempts: seq<Attempt>, bundleName: string) returns (outcome: BundleOutcome)
    ensures outcome == ZipUpResult(ModifiedDir(home), workbooks, multi, protect, attempts, bundleName)
  {
    var modifiedResults := ModifiedDir(home);
    var password: Option<string> := None;
    if protect {
      var mismatches;
      password, mismatches := PasswordSet(attempts);
      if password.None? {
        return Unconfirmed(mismatches);
      }
    }
    if !multi {
      var archives := ZipEach(modifiedResults, workbooks, password);
      outcome := Bundled(archives);
    } else {
      var archive := ZipAll(modifiedResults, workbooks, password, bundleName);
      outcome := Bundled([archive]);
    }
  }

  /**
   * For the workbook the batch wrote for the export `source`, the per-file zip is
   * named by the stem of `source` and holds the workbook under its own name.
   */
  lemma PerFileArchiveOfWorkbook(modifiedResults: string, source: string, password: Option<string>)
    ensures var a := PerFileArchive(modifiedResults, OutputPath(modifiedResults, source), password);
      && a.path == modifiedResults + "/" + Stem(source) + ".zip"
      && a.members == [Member(modifiedResults + "/" + OutputName(source), OutputName(source))]
  {
    OutputPathNames(modifiedResults, source);
  }

  /** Inside every archive, each member is stored under its base name, with no directory part. */
  lemma ArcnamesAreBasenames(modifiedResults: string, workbooks: seq<string>, multi: bool,
                             password: Option<string>, bundleName: string)
    ensures var plan := Plan(modifiedResults, workbooks, multi, password, bundleName);
      forall i, j :: 0 <= i < |plan| && 0 <= j < |plan[i].members| ==>
        plan[i].members[j].arcname == Basename(plan[i].members[j].source) && '/' !in plan[i].members[j].arcname
  {
    var plan := Plan(modifiedResults, workbooks, multi, password, bundleName);
    forall i, j | 0 <= i < |plan| && 0 <= j < |plan[i].members|
      ensures plan[i].members[j].arcname == Basename(plan[i].members[j].source) && '/' !in plan[i].members[j].arcname
    {
      var w := if multi then workbooks[j] else workbooks[i];
      if multi {
        MembersAt(modifiedResults, workbooks, j);
      }
      assert plan[i].members[j] == MemberFor(modifiedResults, w);
    }
  }

  /**
   * With the decision `multi := len(workbooks) > 1`, a non-empty list always yields
   * exactly one archive, holding every workbook in order: for one workbook it is
   * named after that workbook, otherwise it carries the name the user typed.
   */
  lemma OneArchiveForAnyCount(modifiedResults: string, workbooks: seq<string>, password: Option<string>, bundleName: string)
    requires workbooks != []
    ensures var plan := Plan(modifiedResults, workbooks, |workbooks| > 1, password, bundleName);
      |plan| == 1 && plan[0].members == Members(modifiedResults, workbooks) && plan[0].password == password
      && plan[0].path == modifiedResults + "/"
           + (if |workbooks| > 1 then bundleName else ZipStem(Basename(workbooks[0]))) + ".zip"
  {
    if |workbooks| == 1 {
      assert Members(modifiedResults, workbooks) == [MemberFor(modifiedResults, workbooks[0])];
    }
  }

  /** With protection on and a confirmed password, every archive is protected by the first agreeing entry. */
  lemma ProtectedArchivesUseConfirmedPassword(modifiedResults: string, workbooks: seq<string>, multi: bool,
                                              attempts: seq<Attempt>, bundleName: string)
    requires FirstMatch(attempts).Some?
    ensures var k := FirstMatch(attempts).value;
      var outcome := ZipUpResult(modifiedResults, workbooks, multi, true, attempts, bundleName);
      outcome.Bundled? && forall a :: a in outcome.archives ==> a.password == Some(attempts[k].entered)
  {
  }
}
