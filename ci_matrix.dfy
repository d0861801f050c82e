/** The CI test-matrix selection of scripts/generate_matrix.py.

    The changed-file list comes from the text `git diff --name-only` prints
    (or is empty when that command fails). A change touching the driver, the
    compute engine or anything with "tests/" in its path selects the full
    matrix, and so does an empty change list; any other change selects the
    minimal one-job matrix. A short listing of the changed files is written
    for diagnostics, truncated after five entries. */
module CiMatrix {
  import opened Wrappers
  import opened PyStrings

  /** The path fragments whose presence anywhere in a changed path requires
      the full matrix. */
  const CriticalPaths: seq<string> := ["src/gpu_driver.py", "src/gpu_compute.py", "tests/"]

  /** `critical in file` holds for some critical path. */
  predicate TouchesCriticalPath(file: string) {
    exists m :: 0 <= m < |CriticalPaths| && IsSubstring(CriticalPaths[m], file)
  }

  /** What `should_run_full_matrix(changed_files)` decides. */
  predicate NeedsFullMatrix(changedFiles: seq<string>) {
    exists k :: 0 <= k < |changedFiles| && TouchesCriticalPath(changedFiles[k])
  }

  /** `should_run_full_matrix`: the nested search over changed files and
      critical paths, returning as soon as one critical path occurs in one
      changed file. */
  method ShouldRunFullMatrix(changedFiles: seq<string>) returns (full: bool)
    ensures full <==> NeedsFullMatrix(changedFiles)
  {
    for i := 0 to |changedFiles|
      invariant forall k :: 0 <= k < i ==> !TouchesCriticalPath(changedFiles[k])
    {
      for j := 0 to |CriticalPaths|
        invariant forall m :: 0 <= m < j ==> !IsSubstring(CriticalPaths[m], changedFiles[i])
      {
        if IsSubstring(CriticalPaths[j], changedFiles[i]) {
          return true;
        }
      }
    }
    return false;
  }

  /** One `exclude` entry: the job combinations to skip. */
  datatype Exclusion = Exclusion(os: string, gpuDriverVersion: string)

  /** The emitted JSON object: three axes and, in the full matrix only, an
      `exclude` list (None is an absent key). */
  datatype Matrix = Matrix(
    os: seq<string>,
    pythonVersion: seq<string>,
    gpuDriverVersion: seq<string>,
    exclude: Option<seq<Exclusion>>)

  const MinimalMatrix: Matrix := Matrix(["ubuntu-latest"], ["3.10"], ["2.0"], None)

  const FullMatrix: Matrix := Matrix(
    ["ubuntu-latest", "windows-latest"],
    ["3.9", "3.10", "3.11"],
    ["1.0", "2.0"],
    Some([Exclusion("windows-latest", "2.0")]))

  /** The condition under which `generate_matrix` picks the full matrix. */
  predicate SelectsFullMatrix(changedFiles: seq<string>) {
    NeedsFullMatrix(changedFiles) || changedFiles == []
  }

  /** `generate_matrix(changed_files)` for an explicit list: starts from the
      minimal matrix and replaces it by the full one when a critical path
      changed or nothing changed. */
  method GenerateMatrix(changedFiles: seq<string>) returns (matrix: Matrix)
    ensures SelectsFullMatrix(changedFiles) ==> matrix == FullMatrix
    ensures !SelectsFullMatrix(changedFiles) ==> matrix == MinimalMatrix
  {
    matrix := MinimalMatrix;
    var full := ShouldRunFullMatrix(changedFiles);
    if full || |changedFiles| == 0 {
      matrix := FullMatrix;
    }
  }

  /** The two matrices differ, so the selection rule decides the result in
      both directions. */
  lemma MatricesDiffer()
    ensures FullMatrix != MinimalMatrix
  {
  }

  /** The minimal matrix has one value per axis and no `exclude` key. */
  lemma MinimalMatrixShape()
    ensures |MinimalMatrix.os| == |MinimalMatrix.pythonVersion| == |MinimalMatrix.gpuDriverVersion| == 1
    ensures MinimalMatrix.os[0] == "ubuntu-latest" && MinimalMatrix.pythonVersion[0] == "3.10"
    ensures MinimalMatrix.gpuDriverVersion[0] == "2.0" && MinimalMatrix.exclude == None
  {
  }

  /** The full matrix spans 2 operating systems, 3 Python versions and 2
      driver versions, and excludes exactly the Windows / driver 2.0
      combination, both of whose values occur on their axes. */
  lemma FullMatrixShape()
    ensures |FullMatrix.os| == 2 && |FullMatrix.pythonVersion| == 3 && |FullMatrix.gpuDriverVersion| == 2
    ensures FullMatrix.exclude == Some([Exclusion("windows-latest", "2.0")])
    ensures forall e :: e in FullMatrix.exclude.value ==> e.os in FullMatrix.os && e.gpuDriverVersion in FullMatrix.gpuDriverVersion
  {
  }

  /** An empty change list touches no critical path (the full matrix it gets
      comes from the separate emptiness test). */
  lemma NoChangesNeedNoFullMatrix()
    ensures !NeedsFullMatrix([])
    ensures SelectsFullMatrix([])
  {
  }

  /** A pattern whose first character does not occur in `s` is not a
      substring of `s`. */
  lemma AbsentFirstCharacter(pat: string, s: string)
    requires |pat| > 0 && pat[0] !in s
    ensures !IsSubstring(pat, s)
  {
  }

  /** Changing only README.md selects the minimal matrix; adding a test file
      to that change selects the full matrix. */
  lemma ReadmeChangeIsMinimal()
    ensures !SelectsFullMatrix(["README.md"])
    ensures SelectsFullMatrix(["README.md", "tests/test_driver.py"])
  {
    var readme := "README.md";
    AbsentFirstCharacter(CriticalPaths[0], readme);
    AbsentFirstCharacter(CriticalPaths[1], readme);
    AbsentFirstCharacter(CriticalPaths[2], readme);
    var files := ["README.md", "tests/test_driver.py"];
    assert OccursAt(CriticalPaths[2], files[1], 0);
  }

  /** The match is on a substring anywhere in the path, not a prefix: a
      "tests/" directory nested anywhere, or a file name that merely starts
      with a critical path, selects the full matrix. */
  lemma MatchAnywhereInPath()
    ensures SelectsFullMatrix(["docs/tests/notes.md"])
    ensures SelectsFullMatrix(["backup/src/gpu_driver.py.orig"])
  {
    var nested := "docs/tests/notes.md";
    assert nested == "docs/" + CriticalPaths[2] + "notes.md";
    OccursBetween("docs/", CriticalPaths[2], "notes.md");
    assert TouchesCriticalPath(nested);
    assert NeedsFullMatrix([nested]) by { assert [nested][0] == nested; }
    var copy := "backup/src/gpu_driver.py.orig";
    assert copy == "backup/" + CriticalPaths[0] + ".orig";
    OccursBetween("backup/", CriticalPaths[0], ".orig");
    assert TouchesCriticalPath(copy);
    assert NeedsFullMatrix([copy]) by { assert [copy][0] == copy; }
  }

  /** The selection depends only on which paths occur in the list, not on
      their order or repetitions. */
  lemma SelectionIgnoresOrder(a: seq<string>, b: seq<string>)
    requires forall f :: f in a <==> f in b
    ensures SelectsFullMatrix(a) <==> SelectsFullMatrix(b)
  {
    if NeedsFullMatrix(a) {
      var k :| 0 <= k < |a| && TouchesCriticalPath(a[k]);
      assert a[k] in b;
    }
    if NeedsFullMatrix(b) {
      var k :| 0 <= k < |b| && TouchesCriticalPath(b[k]);
      assert b[k] in a;
    }
    if a != [] {
      assert a[0] in b;
    }
    if b != [] {
      assert b[0] in a;
    }
  }

  /** For a non-empty change list, adding more changed paths can move from
      the minimal to the full matrix but never back. */
  lemma MoreChangesNeverDowngrade(changedFiles: seq<string>, more: seq<string>)
    requires changedFiles != [] && SelectsFullMatrix(changedFiles)
    ensures SelectsFullMatrix(changedFiles + more)
  {
    var k :| 0 <= k < |changedFiles| && TouchesCriticalPath(changedFiles[k]);
    assert (changedFiles + more)[k] == changedFiles[k];
  }

  /** The non-empty premise is needed: the empty list selects the full
      matrix, and adding README.md to it selects the minimal one. */
  lemma EmptyListIsTheException()
    ensures SelectsFullMatrix([]) && !SelectsFullMatrix([] + ["README.md"])
  {
    ReadmeChangeIsMinimal();
    assert [] + ["README.md"] == ["README.md"];
  }

  /** The outcome of running `git diff --name-only`: its standard output, or
      the failure that `get_changed_files` catches. */
  datatype GitDiff = Completed(stdout: string) | Failed

  /** `stdout.strip().split('\n') if stdout.strip() else []`: blank output
      gives no files; otherwise joining the files with line breaks gives the
      stripped output back and no file contains a line break, which by
      `SplitJoin` determines the list completely. */
  function ParseChangedFiles(stdout: string): (files: seq<string>)
    ensures files == [] <==> AllSpace(stdout)
    ensures files != [] ==> Join(files, '\n') == Strip(stdout)
    ensures forall k :: 0 <= k < |files| ==> '\n' !in files[k]
  {
    var text := Strip(stdout);
    if text == [] then
      []
    else
      JoinSplit(text, '\n');
      SplitPiecesExcludeSeparator(text, '\n');
      Split(text, '\n')
  }

  /** `get_changed_files`: a failed diff counts as no changed files, and so
      does a blank one; otherwise the files are the lines of the stripped
      output. */
  function ChangedFiles(diff: GitDiff): (files: seq<string>)
    ensures files == [] <==> diff.Failed? || AllSpace(diff.stdout)
    ensures diff.Completed? && files != [] ==> Join(files, '\n') == Strip(diff.stdout)
    ensures forall k :: 0 <= k < |files| ==> '\n' !in files[k]
  {
    match diff
    case Failed => []
    case Completed(stdout) => ParseChangedFiles(stdout)
  }

  /** A failed or blank diff falls back to the full matrix. */
  lemma NoDiffRunsEverything(diff: GitDiff)
    requires diff.Failed? || AllSpace(diff.stdout)
    ensures SelectsFullMatrix(ChangedFiles(diff))
  {
  }

  /** A diff that lists one path followed by a line break yields exactly
      that path, provided the path has no surrounding whitespace. */
  lemma OneLineDiff(file: string)
    requires file != [] && !IsSpace(file[0]) && !IsSpace(file[|file| - 1]) && '\n' !in file
    ensures ParseChangedFiles(file + "\n") == [file]
  {
    var padded := file + "\n";
    assert TrimStart(padded) == padded;
    assert padded[..|padded| - 1] == file;
    assert TrimEnd(padded) == TrimEnd(file) == file;
    assert Strip(padded) == file;
    SplitJoin([file], '\n');
  }

  /** Whitespace at the edges of the output is stripped before the split,
      so a leading blank in the first path is lost: a diff listing the file
      " " + file yields just `file`. */
  lemma LeadingBlankIsLost(file: string)
    requires file != [] && !IsSpace(file[0]) && !IsSpace(file[|file| - 1]) && '\n' !in file
    ensures ParseChangedFiles(" " + file + "\n") == [file]
  {
    var padded := " " + file + "\n";
    assert padded[1..] == file + "\n";
    assert TrimStart(padded) == TrimStart(file + "\n");
    assert Strip(padded) == Strip(file + "\n");
    OneLineDiff(file);
  }

  /** A diff listing only README.md selects the minimal matrix. */
  lemma ReadmeDiffIsMinimal()
    ensures !SelectsFullMatrix(ChangedFiles(Completed("README.md\n")))
  {
    var readme := "README.md";
    assert readme + "\n" == "README.md\n";
    OneLineDiff(readme);
    ReadmeChangeIsMinimal();
  }

  /** How many changed files are listed by name before the rest are only
      counted. */
  const ListingLimit: nat := 5

  function Min(a: int, b: int): int {
    if a <= b then a else b
  }

  /** The diagnostic listing of `main`: the total, the files shown by name
      and how many are left unnamed. */
  datatype Listing = Listing(total: nat, shown: seq<string>, hidden: nat)

  /** `changed_files[:5]` and `len(changed_files) - 5`: the first
      `min(5, n)` files are shown in order and the remainder are counted. */
  function Truncate(changedFiles: seq<string>): (listing: Listing)
    ensures listing.total == |changedFiles|
    ensures |listing.shown| == Min(ListingLimit, |changedFiles|)
    ensures listing.shown + changedFiles[|listing.shown|..] == changedFiles
    ensures listing.hidden == |changedFiles| - |listing.shown|
    ensures listing.hidden > 0 <==> |changedFiles| > ListingLimit
  {
    var shown := if |changedFiles| <= ListingLimit then changedFiles else changedFiles[..ListingLimit];
    assert shown + changedFiles[|shown|..] == changedFiles;
    Listing(|changedFiles|, shown, |changedFiles| - |shown|)
  }

  function CountLine(total: nat): string {
    "\nChanged files: " + NatToString(total)
  }

  function FileLine(file: string): string {
    "  - " + file
  }

  function MoreLine(hidden: nat): string {
    "  ... and " + NatToString(hidden) + " more"
  }

  function FileLines(files: seq<string>): (lines: seq<string>)
    ensures |lines| == |files|
    ensures forall k :: 0 <= k < |files| ==> lines[k] == FileLine(files[k])
  {
    if files == [] then [] else [FileLine(files[0])] + FileLines(files[1..])
  }

  /** The lines `main` writes to standard error (each followed by a line
      break when printed): nothing for an empty change list; otherwise the
      count, one line per shown file, and a "more" line exactly when more
      than five files changed. */
  function DiagnosticLines(changedFiles: seq<string>): (lines: seq<string>)
    ensures lines == [] <==> changedFiles == []
    ensures changedFiles != [] ==>
      && var n := |changedFiles|;
      && |lines| == 1 + Min(ListingLimit, n) + (if n > ListingLimit then 1 else 0)
      && lines[0] == CountLine(n)
      && (forall k :: 0 <= k < Min(ListingLimit, n) ==> lines[1 + k] == FileLine(changedFiles[k]))
      && (n > ListingLimit ==> lines[|lines| - 1] == MoreLine(n - ListingLimit))
  {
    if changedFiles == [] then
      []
    else
      var listing := Truncate(changedFiles);
      [CountLine(listing.total)]
        + FileLines(listing.shown)
        + (if listing.hidden > 0 then [MoreLine(listing.hidden)] else [])
  }

  /** The count on the first diagnostic line reads back as the number of
      changed files. */
  lemma CountLineReadsBack(changedFiles: seq<string>)
    requires changedFiles != []
    ensures var header := DiagnosticLines(changedFiles)[0];
      |header| > 16 && DecimalValue(header[16..]) == |changedFiles|
  {
    var header := DiagnosticLines(changedFiles)[0];
    assert header[16..] == NatToString(|changedFiles|);
    DecimalRoundTrip(|changedFiles|);
  }

  /** Six changed files: five are named and one is counted as "1 more". */
  lemma SixFilesListing()
    ensures var files := ["a", "b", "c", "d", "e", "f"];
      DiagnosticLines(files) == [CountLine(6)] + FileLines(files[..5]) + [MoreLine(1)]
  {
  }
}
