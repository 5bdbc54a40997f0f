# Research-paper website test harness, modelled in Dafny

The repository checks a static research-paper landing page (`index.html`,
`style.css`, `script.js`) in one of two ways:

- **Static validation** (`runBasicValidation` in run-tests.js). It runs three
  existence checks, then one substring check per section marker `id="…"` and
  per essential markup fragment in the page. Then comes one check per required
  function in the script, written either as `function <name>` or as `<name> =`.
  One `passed` and one `failed` counter are shared by all the groups. A file
  that cannot be read turns its whole group into a single failure.
- **Browser path** (`runWithPuppeteer`). It evaluates test.js in a headless
  page. That script registers seven DOM tests on a `SimpleTest` object and runs
  them. The runner then looks at the captured console: the first line that
  mentions `📊 Test Results:` must contain `0 failed`. If anything on this path
  throws, the runner falls back to static validation.

`main` chooses the browser path when `--puppeteer` or `--browser` is an
argument. It exits with code 0 on success and 1 otherwise.

The model has seven modules:

- `Wrappers`: the `Option` type, for an attribute that is not set or a search
  that finds nothing.
- `Tallies`: pass/fail counters and `Score`, the counters of a sequence of
  check outcomes.
- `Text`: `String.prototype.includes` and the decimal rendering of a counter.
- `StaticValidation`: static validation over an abstract directory. The
  directory maps each existing name to its text or to "unreadable". The
  validator is an imperative method with one loop per group. It is proved
  against the function `Validation`, and the lemmas about `Validation` give the
  totals and the pass/fail verdict.
- `SimpleTests`: the `SimpleTest` class, with fields `tests`, `passed` and
  `failed`, and the `assert` and `assertEqual` guards. A test body is
  represented by how it ends: `Ok`, or `Err(message)` for the error it throws.
- `WebsiteTests`: the seven registered tests as functions of what they observe
  on the page. These are the ids that resolve, the navigation hrefs, the
  dark-mode flag before and after the click, and the presence of the other
  elements. The module also has the script that registers the seven tests and
  runs them.
- `TestRunner`: the console verdict, the fallback, and flag and exit-code
  dispatch.

The verdict's substring test has a quirk, which the model keeps as written and
proves. On the suite's summary line, `includes('0 failed')` holds exactly when
the failure count is a multiple of ten, so a run with 10 failures is accepted
(`ZeroFailedOccurs`, `TenFailuresAccepted`). The repository's own suite has
only seven tests. So the browser path succeeds exactly when the page passes
every test (`SuiteVerdict`), under two conditions. First, nothing the page
printed before the suite started mentions the marker. Second, no navigation
href contains the marker's first character, `📊`. The suite's own start line,
descriptions and fixed messages are proved free of it.

The second condition is needed because a failing navigation link's error line
echoes its href (test.js:69 and test.js:27). That line comes before the
summary. Take a page with every section and one link whose href is not an
anchor but contains `📊 Test Results:` and `0 failed`. The suite fails, yet the
runner takes the echoed line for the summary and accepts the run
(`EchoedSummaryAccepted`; `SpoofedHref` is such an href).

Three behaviours of the code are easy to miss, and the model follows the code:

- A summary with 10, 20, … failures counts as success, not only one with zero
  failures.
- An error line that echoes a navigation href mentioning the summary marker can
  stand in for the summary.
- `run()` does not reset the counters, so `passed + failed` equals the number
  of registered tests only for the first run of a fresh suite.

The browser is closed only when evaluation succeeds. This is not modelled.

## Model

| member | source | states |
|---|---|---|
| `Tallies.Score` | run-tests.js:20-28 | each check adds one to exactly one counter, so `passed + failed` is the number of checks |
| `Tallies.ScoreCountsOutcomes` | run-tests.js:20-28 | `failed` is the number of failing checks and `passed` the number of passing ones, in any order |
| `Tallies.ScoreOneFailure` | run-tests.js:34-43 | one failing check among passing ones counts as exactly one failure, every other check as a pass |
| `Tallies.ScoreVerdict` | run-tests.js:90 | no check fails exactly when every check holds; no check passes exactly when every check fails |
| `Tallies.ScoreAppend` | run-tests.js:16-87 | counting two groups one after the other on shared counters adds their counts |
| `Text.Includes` | run-tests.js:36 | defines `text.includes(frag)` as a search from the left over every start index; the empty fragment is always found |
| `Text.IncludesIffOccurs` | run-tests.js:36 | the `includes` search succeeds exactly when the fragment occurs at some index of the text |
| `Text.IncludesInSuffix` | run-tests.js:123 | a fragment found in a text is found in any longer text that ends with it |
| `Text.DecimalString` | test.js:32 | a counter renders as a non-empty string of digits that ends in the counter's last digit and has no leading zero |
| `Text.DecimalRoundTrip` | test.js:32 | reading the rendered digits back gives the counter |
| `StaticValidation.ReadFile` | run-tests.js:32 | a read succeeds exactly when the name exists and its entry is readable; otherwise it is an error, not a crash |
| `StaticValidation.ExistenceInOrder` | run-tests.js:19-28 | the existence group records page, stylesheet and script in that order, each as one pass when present and one failure when missing |
| `StaticValidation.PageGroup` | run-tests.js:30-67 | a readable page adds 11 checks, all passing exactly when every section marker and fragment occurs; an unreadable page adds exactly one failure and no pass |
| `StaticValidation.ScriptGroup` | run-tests.js:69-87 | a readable script adds 3 checks, all passing exactly when each function occurs in one of its two forms; an unreadable script adds exactly one failure |
| `StaticValidation.Validation` | run-tests.js:15-87 | defines the final counters as the existence, page and script groups' counts added in that order |
| `StaticValidation.ValidationTotal` | run-tests.js:15-87 | `passed + failed = 3 + (page readable ? 11 : 1) + (script readable ? 3 : 1)` |
| `StaticValidation.ValidationPassesIffConformant` | run-tests.js:15-90 | no failure exactly when all three files exist, both texts read and conform; then the counters are 17 passed, 0 failed |
| `StaticValidation.NoRequiredFile` | run-tests.js:15-87 | a directory without any of the three files gives 0 passed, 5 failed |
| `StaticValidation.EmptyDirectory` | run-tests.js:15-87 | the empty directory gives 0 passed, 5 failed |
| `StaticValidation.RemoveStylesheet` | run-tests.js:15-28 | the stylesheet is only checked for existence: deleting it turns exactly one pass into one failure |
| `StaticValidation.OneMissingSection` | run-tests.js:34-43 | a page missing exactly one section marker gets 5 section passes and 1 section failure |
| `StaticValidation.OneMissingSectionValidation` | run-tests.js:15-90 | in an otherwise conformant directory, a page missing one section marker ends the run at 16 passed, 1 failed: the other checks are unaffected |
| `StaticValidation.CheckRequiredFiles` | run-tests.js:19-28 | the existence loop adds the existence group's counts to the running counters |
| `StaticValidation.CheckPageStructure` | run-tests.js:30-67 | reading the page and running both loops adds the page group's counts; a read error adds one failure |
| `StaticValidation.CheckSections` | run-tests.js:34-43 | the section loop adds one pass per marker found and one failure per marker missing |
| `StaticValidation.CheckElements` | run-tests.js:45-62 | the fragment loop adds one pass per fragment found and one failure per fragment missing |
| `StaticValidation.CheckScriptFunctions` | run-tests.js:69-87 | reading the script and running its loop adds the script group's counts; a read error adds one failure |
| `StaticValidation.RunBasicValidation` | run-tests.js:12-91 | the counters end as the three groups' counts from zero; the result is `failed === 0`, which holds exactly when the directory conforms |
| `SimpleTests.Assert` | test.js:36-40 | throws exactly when the condition is false, and then with the given message |
| `SimpleTests.AssertEqual` | test.js:42-46 | throws exactly when actual and expected differ, with the message `<message>. Expected: <expected>, Got: <actual>` |
| `SimpleTests.FirstError` | test.js:56-59 | defines a body of assertions as ending with the error of its first throwing assertion, or normally when none throws |
| `SimpleTests.FirstErrorVerdict` | test.js:56-59 | a body made of assertions ends normally exactly when none of them throws, and its error is one of theirs |
| `SimpleTests.FirstErrorIsFirst` | test.js:56-59 | the first assertion that throws ends the body with its own error; later ones are not reached |
| `SimpleTests.Report` | test.js:23-27 | one line for a passing test, two for a failing one (`✅ PASS: `, or `❌ FAIL: ` and `   Error: <message>`) |
| `SimpleTests.Reports` | test.js:20-30 | defines a run's report lines as each test's lines in registration order |
| `SimpleTests.SummaryLine` | test.js:32 | defines the final line: a newline, `📊 Test Results:`, the passed count, `passed, `, the failed count and `failed` |
| `SimpleTests.ReportsLength` | test.js:20-30 | a run prints one line per passing test and two per failing test |
| `SimpleTests.ReportsAppend` | test.js:20-30 | the lines for two lists of tests run one after the other are the first list's lines followed by the second's |
| `SimpleTests.ReportsHead` | test.js:23-27 | when the first test passes and the second fails, the run prints `✅ PASS: <first>`, `❌ FAIL: <second>` and `   Error: <its message>` in that order |
| `SimpleTests.ReportsAvoid` | test.js:23-27 | a character absent from the fixed prefixes, the descriptions and the error messages is absent from every report line |
| `SimpleTests.SimpleTest.constructor` | test.js:7-11 | a new suite has no tests and both counters at zero |
| `SimpleTests.SimpleTest.Test` | test.js:13-15 | registering appends the test at the end of the list and leaves both counters unchanged |
| `SimpleTests.SimpleTest.Run` | test.js:17-34 | every test runs in order; each adds one to `passed` if its body ends normally, otherwise one to `failed`, and later tests still run; counters grow from their old values without reset; the console gets the start line, each test's lines and the summary; the result is `failed === 0` |
| `WebsiteTests.SectionsTest` | test.js:53-60 | defines test 1: one assertion per id of the seven sections, in list order |
| `WebsiteTests.NavigationTest` | test.js:63-71 | defines test 2: at least one `.nav a`, then `href && href.startsWith('#')` per link, echoing the href in the error |
| `WebsiteTests.DarkModeTest` | test.js:74-85 | defines test 3: the toggle exists, then the click must change the `dark-mode` class |
| `WebsiteTests.CarouselsTest` | test.js:88-94 | defines test 4: both carousel ids resolve |
| `WebsiteTests.CopyTest` | test.js:97-103 | defines test 5: the copy button exists and `copyBibTeX` is a function |
| `WebsiteTests.StructureTest` | test.js:106-115 | defines test 6: title, authors and buttons exist |
| `WebsiteTests.AssetsTest` | test.js:118-124 | defines test 7: the script and stylesheet tags exist |
| `WebsiteTests.SectionsVerdict` | test.js:53-60 | the sections test passes exactly when all seven ids, including `acknowledgement`, resolve |
| `WebsiteTests.SectionsFirstMissing` | test.js:56-59 | the first missing id ends the sections test with `Section "<id>" should exist` |
| `WebsiteTests.NavigationVerdict` | test.js:63-71 | the navigation test passes exactly when there is a link and every href is present, non-empty and starts with `#`; with no link it fails with `Navigation links should exist` |
| `WebsiteTests.FeatureVerdicts` | test.js:73-124 | tests 3 to 7 pass exactly when the toggle exists and the click changes the dark-mode flag, both carousels exist, the copy button exists and `copyBibTeX` is a function, title, authors and buttons exist, and both asset tags exist |
| `WebsiteTests.OutcomesVerdict` | test.js:52-124 | all seven bodies end normally exactly when the page meets every condition of the seven tests |
| `WebsiteTests.RegisterVerdict` | test.js:17-34 | a run counts the seven registered tests once each, with no failure exactly when every body ends normally |
| `WebsiteTests.BatteryVerdict` | test.js:49-124 | the suite counts seven tests, and none fails exactly when the page meets every condition |
| `WebsiteTests.DarkModeAlone` | test.js:74-85 | on a page meeting every other condition, a click that does not toggle fails test 3 alone with `Dark mode should toggle when button is clicked`; the run counts 6 passed, 1 failed |
| `WebsiteTests.NavigationAvoidsMarker` | test.js:63-71 | the navigation test's error message has no `📊` when no href shown in it has one |
| `WebsiteTests.BatteryAvoidsMarker` | test.js:52-124 | when no href has `📊`, no description or error message of the seven tests has it |
| `WebsiteTests.RegisterTests` | test.js:52-124 | the seven `test(...)` calls append the seven tests in order, counters unchanged |
| `WebsiteTests.RunPageTests` | test.js:49-131 | a fresh suite with the seven tests registered and run: counters equal the tests' counts, the console ends with the summary of those counts, and the result holds exactly when the page meets every condition |
| `TestRunner.FindFirst` | run-tests.js:123 | `logs.find`: a log it returns is one of the logs and mentions the marker |
| `TestRunner.BrowserVerdict` | run-tests.js:123-129 | an accepted console has a line that mentions the marker and contains `0 failed` |
| `TestRunner.FindFirstAt` | run-tests.js:123 | `logs.find` returns the first log that mentions the marker |
| `TestRunner.FindFirstNone` | run-tests.js:123 | `logs.find` finds nothing exactly when no log mentions the marker |
| `TestRunner.NoSummaryFails` | run-tests.js:123-130 | a console in which no line mentions the marker is judged a failure |
| `TestRunner.SummaryMentionsMarker` | test.js:32 | the suite's summary line mentions `📊 Test Results:` |
| `TestRunner.ZeroFailedPosition` | run-tests.js:124 | in the summary line, `0 failed` can only start at the last digit of the failure count |
| `TestRunner.ZeroFailedOccurs` | run-tests.js:124 | the summary line contains `0 failed` exactly when the failure count is a multiple of ten |
| `TestRunner.ZeroFailedFound` | run-tests.js:124 | a failure count ending in 0 puts `0 failed` in the summary line |
| `TestRunner.ZeroFailedOnlyAtEnd` | run-tests.js:124 | a summary line containing `0 failed` has a failure count ending in 0 |
| `TestRunner.SummaryVerdict` | run-tests.js:123-130 | when the suite's summary is the first line that mentions the marker, the run is accepted exactly when the failure count is a multiple of ten |
| `TestRunner.TenFailuresAccepted` | run-tests.js:124 | a summary reporting 10 failures is accepted as success |
| `TestRunner.WithoutMarkerChar` | run-tests.js:123 | a line without `📊` does not mention the marker |
| `TestRunner.HeadQuiet` | test.js:18-30 | when the earlier output does not mention the marker and no test text has `📊`, nothing before the summary mentions it |
| `TestRunner.SuiteVerdict` | run-tests.js:123-130 | for the seven-test suite, the console is accepted exactly when the page passes every test, provided nothing printed before the suite mentions the marker and no navigation href contains `📊` |
| `TestRunner.EchoOutcomes` | test.js:53-71 | on a page with every section and one non-anchor link, the sections test passes and the navigation test fails with `Navigation link should have valid anchor: <href>` |
| `TestRunner.FourthLineAccepted` | run-tests.js:123-124 | a console whose fourth line is the first to mention the marker and contains `0 failed` is accepted |
| `TestRunner.EchoedSummaryAccepted` | run-tests.js:123-124 | a page that fails the suite is still accepted when its only, non-anchor href mentions the marker and `0 failed`, because the echoed error line is found first |
| `TestRunner.SpoofedHrefImitates` | test.js:69 | `x📊 Test Results: 0 failed` is not an anchor and mentions both the marker and `0 failed` |
| `TestRunner.Session` | run-tests.js:93-120 | a console is captured exactly when the browser is available, test.js reads and its evaluation yields logs, and it is those logs |
| `TestRunner.RunWithPuppeteer` | run-tests.js:93-137 | the console verdict when loading, reading test.js and evaluating it all succeed; otherwise exactly the static validator's result |
| `TestRunner.RunTestRunner` | run-tests.js:140-161 | with `--puppeteer` or `--browser` the browser path decides, otherwise static validation does; the exit code is 0 on success and 1 otherwise |

## Left out

- File system access (`fs.existsSync`, `fs.readFileSync`, `path.join`) is
  replaced by an abstract directory. A name in it exists; its entry is a text or
  unreadable (for example, a directory of that name).
- Puppeteer is reduced to two cases. Either loading, launching or navigating
  throws, or page evaluation of a script text throws or yields the captured
  console lines. How the page runs test.js is not interpreted. `WebsiteTests`
  models what the repository's test.js does in the page, and `SuiteVerdict`
  connects the two.
- Whether navigation to index.html succeeds is part of the browser value and
  is not tied to the directory. The model therefore also admits a browser path
  that evaluates for a directory without a page file.
- The browser is not closed when a later step throws. This resource leak is not
  modelled.
- The 1000 ms settle delay, `async`/`await`, and the `DOMContentLoaded`
  auto-run at test.js:127-131 are not modelled. Everything runs in sequence, and
  the suite is taken to have finished before the console is read.
- DOM queries and the click are represented by fields of a page snapshot. The
  click's effect is given only as the dark-mode flag after it. Its other
  effects, including any console output from the page's click handler, are not
  modelled: `RunPageTests` and `SuiteVerdict` take the suite's lines as
  contiguous, with no foreign line between them.
- Console text is modelled only for the suite. `runBasicValidation`'s report
  lines, the runner's own messages, `console.error`, `process.exit` and the
  `module.exports` blocks are not.
- The catch around `main` at run-tests.js:165-170 is not modelled: no step on
  the modelled paths throws past `runWithPuppeteer`'s catch or
  `runBasicValidation`'s own (its reads sit in their own `try` blocks).
- SimpleTests.AssertEqual: models `!==` as Dafny equality on one type. It
  leaves out JavaScript's cross-type strictness and `NaN !== NaN`. The
  rendering of the two values in the message is a parameter, `show`.
- StaticValidation.RunBasicValidation: each group's loop is a method of its
  own, and the section and fragment loops of the page group are two methods.
  The counters are passed through them in the source's order.
