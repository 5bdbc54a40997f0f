/** The browser-free check path of run-tests.js (`runBasicValidation`): three file
    existence checks, then substring checks over the page document and over the
    script file. A file that cannot be read turns its whole group of checks into a
    single failure; the other groups still run. */
module StaticValidation {
  import opened Tallies
  import opened Text

  /** What the file system holds under a name that exists. */
  datatype Entry = Unreadable | File(content: string)

  /** The project directory: the names for which `fs.existsSync` holds, each with
      what `fs.readFileSync` would find there. */
  type Directory = map<string, Entry>

  datatype ReadFailure = NoSuchFile | CannotRead

  datatype ReadResult = Read(text: string) | ReadError(reason: ReadFailure)

  /** `fs.readFileSync(name, 'utf8')`, with the exception it throws made a value:
      a name that does not exist, or an entry that cannot be read, is an error. */
  function ReadFile(d: Directory, name: string): (r: ReadResult)
    ensures r.Read? <==> name in d && d[name].File?
  {
    if name !in d then ReadError(NoSuchFile)
    else match d[name]
      case Unreadable => ReadError(CannotRead)
      case File(content) => Read(content)
  }

  predicate Readable(d: Directory, name: string) {
    ReadFile(d, name).Read?
  }

  const PageFile: string := "index.html"
  const StylesheetFile: string := "style.css"
  const ScriptFile: string := "script.js"

  const RequiredFiles: seq<string> := [PageFile, StylesheetFile, ScriptFile]

  const RequiredSections: seq<string> :=
    ["abstract", "introduction", "methodology", "results", "conclusion", "bibtex"]

  const EssentialElements: seq<string> := [
    "<title>",
    "class=\"nav\"",
    "class=\"toggle-btn\"",
    "onclick=\"toggleDarkMode()\"",
    "onclick=\"copyBibTeX()\""
  ]

  const RequiredFunctions: seq<string> := ["toggleDarkMode", "copyBibTeX", "scrollToTop"]

  /** The attribute text a section check looks for: `id="<section>"`. */
  function SectionMarker(section: string): string {
    "id=\"" + section + "\""
  }

  predicate HasSection(html: string, section: string) {
    Includes(html, SectionMarker(section))
  }

  /** The textual heuristic for "the script defines `name`": a declaration
      `function <name>` or an assignment `<name> =` occurs somewhere. */
  predicate HasFunction(js: string, name: string) {
    Includes(js, "function " + name) || Includes(js, name + " =")
  }

  /** The outcome of each existence check, in list order. */
  function ExistenceResults(d: Directory): seq<bool> {
    seq(|RequiredFiles|, i requires 0 <= i < |RequiredFiles| => RequiredFiles[i] in d)
  }

  function SectionResults(html: string): seq<bool> {
    seq(|RequiredSections|, i requires 0 <= i < |RequiredSections| =>
      HasSection(html, RequiredSections[i]))
  }

  function ElementResults(html: string): seq<bool> {
    seq(|EssentialElements|, i requires 0 <= i < |EssentialElements| =>
      Includes(html, EssentialElements[i]))
  }

  function FunctionResults(js: string): seq<bool> {
    seq(|RequiredFunctions|, i requires 0 <= i < |RequiredFunctions| =>
      HasFunction(js, RequiredFunctions[i]))
  }

  /** Every section marker and every essential fragment occurs in the page. */
  predicate PageConforms(html: string) {
    (forall k | 0 <= k < |RequiredSections| :: HasSection(html, RequiredSections[k])) &&
    (forall k | 0 <= k < |EssentialElements| :: Includes(html, EssentialElements[k]))
  }

  /** Every required function occurs in the script in one of the two forms. */
  predicate ScriptConforms(js: string) {
    forall k | 0 <= k < |RequiredFunctions| :: HasFunction(js, RequiredFunctions[k])
  }

  /** All three files exist, both read, and their texts conform. */
  predicate Conformant(d: Directory) {
    PageFile in d && StylesheetFile in d && ScriptFile in d &&
    Readable(d, PageFile) && PageConforms(ReadFile(d, PageFile).text) &&
    Readable(d, ScriptFile) && ScriptConforms(ReadFile(d, ScriptFile).text)
  }

  /** Counters of the existence group: one check per required file. */
  function ExistenceTally(d: Directory): Tally {
    Score(ExistenceResults(d))
  }

  /** Counters of the page group: eleven checks when the page reads, otherwise the
      single failure that reports the read error. */
  function PageTally(d: Directory): Tally {
    match ReadFile(d, PageFile)
    case Read(html) => Score(SectionResults(html)).Plus(Score(ElementResults(html)))
    case ReadError(_) => Tally(0, 1)
  }

  /** Counters of the script group: three checks when the script reads, otherwise
      the single failure that reports the read error. */
  function ScriptTally(d: Directory): Tally {
    match ReadFile(d, ScriptFile)
    case Read(js) => Score(FunctionResults(js))
    case ReadError(_) => Tally(0, 1)
  }

  /** The final `passed` and `failed` counters of `runBasicValidation`. */
  function Validation(d: Directory): Tally {
    ExistenceTally(d).Plus(PageTally(d)).Plus(ScriptTally(d))
  }

  /** The existence group records the page, the stylesheet and the script, in
      that order, each as one pass or one failure. */
  lemma ExistenceInOrder(d: Directory)
    ensures ExistenceTally(d) ==
      Tally(0, 0).Record(PageFile in d).Record(StylesheetFile in d).Record(ScriptFile in d)
  {
    var r := ExistenceResults(d);
    assert r == [PageFile in d, StylesheetFile in d, ScriptFile in d];
    assert r[..0] == [];
    ScorePrefix(r, 0);
    ScorePrefix(r, 1);
    ScorePrefix(r, 2);
    assert r[..3] == r;
  }

  /** A readable page adds eleven checks, which all pass exactly when the page
      conforms; an unreadable page adds one failure and no pass. */
  lemma PageGroup(d: Directory)
    ensures Readable(d, PageFile) ==>
      PageTally(d).passed + PageTally(d).failed == 11 &&
      (PageTally(d).AllPassed() <==> PageConforms(ReadFile(d, PageFile).text))
    ensures !Readable(d, PageFile) ==> PageTally(d) == Tally(0, 1)
  {
    if Readable(d, PageFile) {
      var html := ReadFile(d, PageFile).text;
      var sections, elements := SectionResults(html), ElementResults(html);
      assert PageTally(d) == Score(sections).Plus(Score(elements));
      ScoreVerdict(sections);
      ScoreVerdict(elements);
      assert forall k | 0 <= k < |sections| :: sections[k] == HasSection(html, RequiredSections[k]);
      assert forall k | 0 <= k < |elements| :: elements[k] == Includes(html, EssentialElements[k]);
    }
  }

  /** A readable script adds three checks, which all pass exactly when every
      function is found; an unreadable script adds one failure and no pass. */
  lemma ScriptGroup(d: Directory)
    ensures Readable(d, ScriptFile) ==>
      ScriptTally(d).passed + ScriptTally(d).failed == 3 &&
      (ScriptTally(d).AllPassed() <==> ScriptConforms(ReadFile(d, ScriptFile).text))
    ensures !Readable(d, ScriptFile) ==> ScriptTally(d) == Tally(0, 1)
  {
    if Readable(d, ScriptFile) {
      var js := ReadFile(d, ScriptFile).text;
      var functions := FunctionResults(js);
      assert ScriptTally(d) == Score(functions);
      ScoreVerdict(functions);
      assert forall k | 0 <= k < |functions| :: functions[k] == HasFunction(js, RequiredFunctions[k]);
    }
  }

  /** Every check is counted once: three existence checks, then eleven page checks
      or one read failure, then three script checks or one read failure. */
  lemma ValidationTotal(d: Directory)
    ensures Validation(d).passed + Validation(d).failed ==
      3 + (if Readable(d, PageFile) then 11 else 1) + (if Readable(d, ScriptFile) then 3 else 1)
  {
    ExistenceInOrder(d);
    PageGroup(d);
    ScriptGroup(d);
  }

  /** `failed === 0` exactly when the directory is conformant, and then all 17
      checks have passed. */
  lemma ValidationPassesIffConformant(d: Directory)
    ensures Validation(d).AllPassed() <==> Conformant(d)
    ensures Conformant(d) ==> Validation(d) == Tally(17, 0)
  {
    ExistenceInOrder(d);
    PageGroup(d);
    ScriptGroup(d);
  }

  /** A page missing exactly one section marker fails exactly one section check. */
  lemma OneMissingSection(html: string, k: nat)
    requires k < |RequiredSections| && !HasSection(html, RequiredSections[k])
    requires forall j | 0 <= j < |RequiredSections| && j != k :: HasSection(html, RequiredSections[j])
    ensures Score(SectionResults(html)) == Tally(5, 1)
  {
    ScoreOneFailure(SectionResults(html), k);
  }

  /** In an otherwise conformant directory, a page missing one section marker
      costs exactly that one check: the element, existence and function checks
      still pass, so the run ends with 16 passed and 1 failed. */
  lemma OneMissingSectionValidation(d: Directory, html: string, k: nat)
    requires PageFile in d && StylesheetFile in d && ScriptFile in d
    requires d[PageFile] == File(html) && Readable(d, ScriptFile)
    requires ScriptConforms(ReadFile(d, ScriptFile).text)
    requires k < |RequiredSections| && !HasSection(html, RequiredSections[k])
    requires forall j | 0 <= j < |RequiredSections| && j != k :: HasSection(html, RequiredSections[j])
    requires forall j | 0 <= j < |EssentialElements| :: Includes(html, EssentialElements[j])
    ensures Validation(d) == Tally(16, 1)
  {
    ExistenceInOrder(d);
    ScriptGroup(d);
    OneMissingSection(html, k);
    var elements := ElementResults(html);
    ScoreVerdict(elements);
    assert forall j | 0 <= j < |elements| :: elements[j];
  }

  /** The first group of `runBasicValidation`: one existence check per required
      file, in list order, continuing the counters `passed0` and `failed0`. */
  method CheckRequiredFiles(d: Directory, passed0: nat, failed0: nat)
    returns (passed: nat, failed: nat)
    ensures Tally(passed, failed) == Tally(passed0, failed0).Plus(ExistenceTally(d))
  {
    passed, failed := passed0, failed0;
    var exist := ExistenceResults(d);
    for i := 0 to |RequiredFiles|
      invariant Tally(passed, failed) == Tally(passed0, failed0).Plus(Score(exist[..i]))
    {
      ScorePrefix(exist, i);
      if RequiredFiles[i] in d {
        passed := passed + 1;
      } else {
        failed := failed + 1;
      }
    }
    assert exist[..|RequiredFiles|] == exist;
  }

  /** The second group: read the page, then one check per section marker and one
      per essential fragment; a read error is a single failure. */
  method CheckPageStructure(d: Directory, passed0: nat, failed0: nat)
    returns (passed: nat, failed: nat)
    ensures Tally(passed, failed) == Tally(passed0, failed0).Plus(PageTally(d))
  {
    var page := ReadFile(d, PageFile);
    if page.Read? {
      var html := page.text;
      passed, failed := CheckSections(html, passed0, failed0);
      passed, failed := CheckElements(html, passed, failed);
      assert PageTally(d) == Score(SectionResults(html)).Plus(Score(ElementResults(html)));
    } else {
      passed, failed := passed0, failed0 + 1;
    }
  }

  /** The section loop of the second group: `id="<section>"` must occur in the
      page, for each section in list order. */
  method CheckSections(html: string, passed0: nat, failed0: nat)
    returns (passed: nat, failed: nat)
    ensures Tally(passed, failed) == Tally(passed0, failed0).Plus(Score(SectionResults(html)))
  {
    passed, failed := passed0, failed0;
    var sections := SectionResults(html);
    for i := 0 to |RequiredSections|
      invariant Tally(passed, failed) == Tally(passed0, failed0).Plus(Score(sections[..i]))
    {
      ScorePrefix(sections, i);
      if Includes(html, SectionMarker(RequiredSections[i])) {
        passed := passed + 1;
      } else {
        failed := failed + 1;
      }
    }
    assert sections[..|RequiredSections|] == sections;
  }

  /** The element loop of the second group: each essential fragment must occur
      in the page, in list order. */
  method CheckElements(html: string, passed0: nat, failed0: nat)
    returns (passed: nat, failed: nat)
    ensures Tally(passed, failed) == Tally(passed0, failed0).Plus(Score(ElementResults(html)))
  {
    passed, failed := passed0, failed0;
    var elements := ElementResults(html);
    for i := 0 to |EssentialElements|
      invariant Tally(passed, failed) == Tally(passed0, failed0).Plus(Score(elements[..i]))
    {
      ScorePrefix(elements, i);
      if Includes(html, EssentialElements[i]) {
        passed := passed + 1;
      } else {
        failed := failed + 1;
      }
    }
    assert elements[..|EssentialElements|] == elements;
  }

  /** The third group: read the script, then one check per required function; a
      read error is a single failure. */
  method CheckScriptFunctions(d: Directory, passed0: nat, failed0: nat)
    returns (passed: nat, failed: nat)
    ensures Tally(passed, failed) == Tally(passed0, failed0).Plus(ScriptTally(d))
  {
    passed, failed := passed0, failed0;
    var script := ReadFile(d, ScriptFile);
    if script.Read? {
      var js := script.text;
      var functions := FunctionResults(js);
      for i := 0 to |RequiredFunctions|
        invariant Tally(passed, failed) == Tally(passed0, failed0).Plus(Score(functions[..i]))
      {
        ScorePrefix(functions, i);
        var name := RequiredFunctions[i];
        if Includes(js, "function " + name) || Includes(js, name + " =") {
          passed := passed + 1;
        } else {
          failed := failed + 1;
        }
      }
      assert functions[..|RequiredFunctions|] == functions;
    } else {
      failed := failed + 1;
    }
  }

  /** `runBasicValidation`: the three groups share one pair of counters, which
      start at zero; the result is `failed === 0`. `summary` holds the counters the
      final report line prints. */
  method RunBasicValidation(d: Directory) returns (ok: bool, summary: Tally)
    ensures summary == Validation(d)
    ensures ok <==> summary.failed == 0
    ensures ok <==> Conformant(d)
  {
    var passed, failed := CheckRequiredFiles(d, 0, 0);
    ghost var afterFiles := Tally(passed, failed);
    assert afterFiles == ExistenceTally(d);
    passed, failed := CheckPageStructure(d, passed, failed);
    ghost var afterPage := Tally(passed, failed);
    assert afterPage == afterFiles.Plus(PageTally(d));
    passed, failed := CheckScriptFunctions(d, passed, failed);
    summary := Tally(passed, failed);
    assert summary == afterPage.Plus(ScriptTally(d));
    ok := failed == 0;
    ValidationPassesIffConformant(d);
  }

  /** A directory in which none of the three files exists: three missing files
      and two unreadable groups, each of which counts once. */
  lemma NoRequiredFile(d: Directory)
    requires PageFile !in d && StylesheetFile !in d && ScriptFile !in d
    ensures Validation(d) == Tally(0, 5)
  {
    ExistenceInOrder(d);
    assert !Readable(d, PageFile) && !Readable(d, ScriptFile);
  }

  /** The empty directory yields 0 passed and 5 failed. */
  lemma EmptyDirectory()
    ensures Validation(map[]) == Tally(0, 5)
  {
    NoRequiredFile(map[]);
  }

  /** The stylesheet is only checked for existence: deleting it turns exactly one
      pass into one failure and leaves every other check as it was. */
  lemma RemoveStylesheet(d: Directory)
    requires StylesheetFile in d
    ensures Validation(d - {StylesheetFile}).passed == Validation(d).passed - 1
    ensures Validation(d - {StylesheetFile}).failed == Validation(d).failed + 1
  {
    var d' := d - {StylesheetFile};
    FileNamesDistinct();
    assert ReadFile(d', PageFile) == ReadFile(d, PageFile);
    assert ReadFile(d', ScriptFile) == ReadFile(d, ScriptFile);
    assert PageTally(d') == PageTally(d);
    assert ScriptTally(d') == ScriptTally(d);
    ExistenceInOrder(d);
    ExistenceInOrder(d');
  }

  /** The three required names are different files. */
  lemma FileNamesDistinct()
    ensures PageFile != StylesheetFile && PageFile != ScriptFile && StylesheetFile != ScriptFile
  {
    assert |PageFile| == 10 && |StylesheetFile| == 9 && |ScriptFile| == 9;
    assert StylesheetFile[1] == 't' && ScriptFile[1] == 'c';
  }
}
