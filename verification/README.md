# Failed-test rerun action: a Dafny model

This project models the core of a GitHub Action that reruns only the PHPUnit tests that
failed in earlier runs of a workflow. The model covers four parts:

- **The log parser** (`LogParser`). It finds the numbered failure entries `1) Class::method`
  in PHPUnit console output. It does this with one `preg_match_all` of the pattern
  `\d+\)\s+([A-Za-z_\\]+::[A-Za-z_]+)`.
- **The finder** (`FailedTestFinder`). It lists the failed runs of a workflow on a branch,
  lists the latest jobs of each run, and downloads the log of every failed job. It then
  extracts the failed tests and returns them de-duplicated and sorted.
- **The run context** (`ActionContext`). It picks the branch from `GITHUB_HEAD_REF` or
  `GITHUB_REF_NAME`, falling back to `main`. It takes the workflow file name from
  `GITHUB_WORKFLOW_REF`.
- **The command builder** (`PhpUnitRunner`). It builds the PHPUnit command line, with the
  filter passed through `escapeshellarg`.

Supporting modules:

- `PhpValue` models decoded JSON arrays and the PHP operators the finder applies to them
  (`!`, `?? null`, `is_array`, `is_int`, `foreach`).
- `StringOrder` models `array_unique` and `sort` on identifiers. A PHP string is one `char`
  per byte here, so `Less` is byte-wise comparison. That is what `sort` at
  src/FailedTestFinder.php:121 applies to these lists: an identifier contains `::`, so it is
  never a numeric string and PHP compares two of them byte by byte.
- `Text` holds the integer-to-string conversion used in API paths, and `implode`.

The pattern is scanned the way PCRE scans it: leftmost match first, each greedy run
maximal, the search resuming after each match. The scanner is parameterised by a
`Charset`:

- `AsWritten` uses exactly the character classes of the pattern.
- `WithDigits` also admits digits in identifiers, which is what the project's own tests
  expect (see "## Findings").

Every statement about the finder holds for both.

The two methods of `GitHubApiClientInterface` are oracles: pure functions from a request
path to `Option` of the decoded array (`get`) or of the raw body (`getRaw`). `None` stands
for the `null` they return on any error. Besides the tests, `Find` returns the list of
requests it made, so its contract can say which paths it fetches. Environment variables
are parameters: `None` means unset.

## Model

| member | source | states |
|---|---|---|
| LogParser.ExtractFailedTests | src/LogParser.php:26-31 | Defines the captured identifiers, in order. Its contract is carried by `ExtractedOccurrences`, `ExtractedAreTestIds`, `ExtractsWhole`, `ExtractAfterQuietPrefix` and `NoMarkerNoTests`. |
| LogParser.MatchAtSound | src/LogParser.php:28 | A match reported at a position is a word of the pattern: digits, `)`, white space, class-name characters, `::`, method-name characters. Its method name cannot be extended. |
| LogParser.MatchAtComplete | src/LogParser.php:28 | Wherever the pattern can match, the scanner reports a match starting there. It has the same identifier start and is never shorter. It ends exactly where the method name cannot go on. |
| LogParser.HitsCoverEveryMatch | src/LogParser.php:28 | The scan is leftmost-first. Every position where a match could start is either the start of a reported match or inside one. |
| LogParser.HitsAreOrdered | src/LogParser.php:28 | The matches of `preg_match_all` come in log order and never overlap. |
| LogParser.ExtractedOccurrences | src/LogParser.php:26-31 | `extractFailedTests` returns capture group 1 of each match, in log order, with one result per match. Each result follows a `digits) whitespace` marker, has the `Class::method` shape and is not cut short. |
| LogParser.ExtractedAreTestIds | src/LogParser.php:26-31 | Everything returned has the `Class::method` shape. |
| LogParser.ExtractsWhole | src/LogParser.php:28 | A marker followed by a well-formed identifier yields that whole identifier, provided the next character cannot continue a method name. The scan then goes on after it. |
| LogParser.ExtractAfterQuietPrefix | src/LogParser.php:28 | Leading text contributes nothing if it has no digit followed by `)` and does not end in a digit. The result is that of the rest of the log. |
| LogParser.ExtractCountBound | src/LogParser.php:26-31 | There are at most as many results as `)` characters in the log. |
| LogParser.NoMarkerNoTests | src/LogParser.php:26-31 | A log in which no digit is followed by `)` yields no tests. |
| LogParser.AsWrittenHasNoDigits | src/LogParser.php:28 | With the character classes as written, no extracted identifier contains a digit. |
| LogParserExamples.EmptyLog | tests/LogParserTest.php:19-22 | The empty log yields nothing. |
| LogParserExamples.NoNumberedFailures | tests/LogParserTest.php:27-32 | A passing summary line yields nothing. So does an identifier without a numbered marker. |
| LogParserExamples.SingleNamespacedFailure | tests/LogParserTest.php:37-50 | The summary heading is skipped and the one namespaced failure is extracted. |
| LogParserExamples.MultipleFailures | tests/LogParserTest.php:55-74 | Two failures are extracted in the order they are listed. |
| LogParserExamples.NonNamespacedFailure | tests/LogParserTest.php:79-87 | A class without a namespace is extracted. |
| LogParserExamples.DeeplyNestedNamespace | tests/LogParserTest.php:92-100 | A namespace of any depth stays part of the identifier. |
| LogParserExamples.UnderscoresInNames | tests/LogParserTest.php:105-113 | Underscores are kept in class and method names. |
| LogParserExamples.DuplicatesKept | tests/LogParserTest.php:141-153 | The same failure listed twice is returned twice. |
| LogParserExamples.LogOrderKept | src/LogParser.php:26-31 | Failures are returned in log order, not sorted. |
| LogParserExamples.DigitClassDropped | tests/LogParserTest.php:118-126 | With the pattern as written, the log whose only entry has `49` in its class name lists no failed test at all. |
| LogParserExamples.DigitStopsClassRun | src/LogParser.php:28 | Under the pattern as written, an entry whose class name has a digit after its first character is no match: the class run stops at the digit, where `::` is required. |
| LogParserExamples.DigitClassEntryLost | src/LogParser.php:28-31 | Under the pattern as written, a log whose only entry has digits in its class name yields the empty list. |
| LogParserExamples.DigitClassExtracted | tests/LogParserTest.php:118-126 | With digits admitted, the same log yields exactly that identifier. |
| LogParserExamples.MethodDigitTruncated | src/LogParser.php:28 | With the pattern as written, `FooTest::testCase2` is reported as `FooTest::testCase`. |
| LogParserExamples.MethodDigitKept | src/LogParser.php:28 | With digits admitted, the whole `FooTest::testCase2` is reported. |
| PhpValue.Coalesce | src/FailedTestFinder.php:63 | `$a[$k] ?? null` is `Null` when no entry has key `k`. A non-null result is stored under `k`. |
| PhpValue.CoalesceFirst | src/FailedTestFinder.php:75 | The value found is the one of the first entry with the key. |
| PhpValue.Listed | src/FailedTestFinder.php:59-66 | A `null` or empty response, or one with no entry under the key, gives no list. A list is the values, in order, of an array stored under the key. |
| PhpValue.ListedFirst | src/FailedTestFinder.php:59-66 | Take the first entry under the key. The response gives a list exactly when that entry holds an array, and the list is that array's values in order. |
| StringOrder.Unique | src/FailedTestFinder.php:120 | `array_unique`/`array_values` give a duplicate-free list with the same elements, no longer than the input. |
| StringOrder.SortStrings | src/FailedTestFinder.php:121 | `sort` gives a sorted permutation of its input. |
| StringOrder.UniqueSorted | src/FailedTestFinder.php:120-121 | The final list is strictly ascending and has exactly the elements of the collected list. |
| StringOrder.AscendingUnique | src/FailedTestFinder.php:120-123 | Two strictly ascending lists with the same elements are equal, so the result depends only on which tests were collected. |
| Text.IntToDecimalRoundTrip | src/FailedTestFinder.php:80-81 | The decimal rendering of an id in a path reads back as that id. |
| FailedTestFinder.RunsPath | src/FailedTestFinder.php:54-55 | Defines the runs-listing path. `Find` requests it first; `FailedTestFinderExamples.RunsPathOfTest` gives its value for the suite's inputs. |
| FailedTestFinder.JobsPath | src/FailedTestFinder.php:80-81 | Defines the job-list path of a run. `JobsPathInjective` and `FindFetches` carry its contract. |
| FailedTestFinder.LogPath | src/FailedTestFinder.php:106-107 | Defines the log path of a job. `LogPathInjective` and `JobsFetchFailedLogs` carry its contract. |
| FailedTestFinder.RunId | src/FailedTestFinder.php:71-78 | Defines when a run is visited. `RunIdFirst`, `SkippedRunIsInvisible` and `RunsFetch` carry its contract. |
| FailedTestFinder.RunIdFirst | src/FailedTestFinder.php:71-78 | A run that is an array is visited exactly when its first `id` entry holds an integer, and with that id. |
| FailedTestFinder.FailedJobId | src/FailedTestFinder.php:95-104 | Defines when a job's log is requested. `FailedJobIdFirst`, `SkippedJobIsInvisible` and `JobsFetchFailedLogs` carry its contract. |
| FailedTestFinder.FailedJobIdFirst | src/FailedTestFinder.php:95-104 | A job's log is requested exactly when its first `id` entry holds an integer and its first `conclusion` entry is the string `failure`. The id is that integer. |
| FailedTestFinder.Find | src/FailedTestFinder.php:48-124 | The first request is the runs listing. A falsy listing, or one without a `workflow_runs` array, ends the search with no tests and no other request. The result is strictly ascending. A test is in it exactly when it was extracted from a log the search downloaded. |
| FailedTestFinder.RunsHarvest | src/FailedTestFinder.php:70-118 | The tests merged over all runs are exactly those extracted from the downloaded logs, in download order. |
| FailedTestFinder.JobsHarvest | src/FailedTestFinder.php:94-117 | The same holds within one job list. |
| FailedTestFinder.FindFetches | src/FailedTestFinder.php:54-109 | The JSON requests are the runs listing, then one job list per run with an integer id, in run order. The log requests are one per failed job of each readable job list, in order. Nothing else is requested. |
| FailedTestFinder.RunsFetch | src/FailedTestFinder.php:70-92 | Job lists are requested for exactly the runs with an integer id, in order. |
| FailedTestFinder.JobsFetchFailedLogs | src/FailedTestFinder.php:94-109 | Logs are downloaded for exactly the failed jobs, once each, in list order. No JSON request is made. |
| FailedTestFinder.SkippedRunIsInvisible | src/FailedTestFinder.php:71-78 | A run that is not an array, or has no integer id, is skipped without a request. The other runs are visited as if it were absent. |
| FailedTestFinder.UnlistedRunOnlyAsks | src/FailedTestFinder.php:85-92 | A run whose jobs response is falsy or has no `jobs` array costs exactly one request and adds no test. |
| FailedTestFinder.SkippedJobIsInvisible | src/FailedTestFinder.php:95-104 | A job is skipped without a request, as if absent, in three cases: it is not an array, it has no integer id, or its conclusion is not identical to `failure`. |
| FailedTestFinder.UnreadableLogOnlyAsks | src/FailedTestFinder.php:111-113 | A failed job whose log is `null` costs exactly one request and adds no test. |
| FailedTestFinder.HarvestIsLogsTests | src/FailedTestFinder.php:109-116 | The tests collected from a request log are those of the logs it downloaded, in download order. A log whose download returns `null` adds nothing. |
| FailedTestFinder.FindIsReference | src/FailedTestFinder.php:48-124 | Given a run list, `find` returns the tests of the logs of the failed jobs of the runs whose job list could be read, de-duplicated and sorted. Without a run list it returns `[]`. |
| FailedTestFinder.NoFailedJobsFindsNothing | src/FailedTestFinder.php:94-123 | When no readable run has a failed job, the result is `[]`. |
| FailedTestFinder.UnreadableLogsFindNothing | src/FailedTestFinder.php:109-123 | When every log download returns `null`, the result is `[]`. |
| FailedTestFinder.HarvestOfOneLog | src/FailedTestFinder.php:115-116 | If every log download returns the same text, the collected tests are that text's tests, provided some log was downloaded. |
| FailedTestFinder.FindOfOneLog | src/FailedTestFinder.php:109-123 | Against such a client, `find` returns each test of the log once. It does so exactly when some failed job was found. |
| FailedTestFinder.LogPathInjective | src/FailedTestFinder.php:106-107 | Two jobs share a log path exactly when they have the same id. |
| FailedTestFinder.JobsPathInjective | src/FailedTestFinder.php:80-81 | Two runs share a job-list path exactly when they have the same id. |
| FailedTestFinderExamples.RunsPathOfTest | tests/FailedTestFinderTest.php:230-238 | The runs listing for `ci.yml` on `develop` with three runs has the path the suite expects. |
| FailedTestFinderExamples.RunsListingFails | tests/FailedTestFinderTest.php:25-30 | When the API answers `null`, nothing is found and only the listing is requested. |
| FailedTestFinderExamples.NoFailedRuns | tests/FailedTestFinderTest.php:35-40 | An empty runs list yields nothing, after the one request. |
| FailedTestFinderExamples.SingleJobLog | tests/FailedTestFinderTest.php:97-120 | The one failure in the log of the one failed job is found. |
| FailedTestFinderExamples.DeduplicatedAcrossRuns | tests/FailedTestFinderTest.php:125-143 | The same failure in two runs is reported once. |
| FailedTestFinderExamples.OnlyFailedJobLogFetched | tests/FailedTestFinderTest.php:178-200 | Of a succeeded and a failed job, exactly one log is requested: the failed one's. |
| FailedTestFinderExamples.SortedResult | tests/FailedTestFinderTest.php:205-225 | Failures listed out of order are returned sorted. |
| ActionContext.GetBranch | src/ActionContext.php:26-34 | A truthy head ref is returned. Otherwise a truthy ref name is returned. Otherwise the result is `main`. The result is never empty and never `0`. |
| ActionContext.GetWorkflowName | src/ActionContext.php:44-52 | The name is empty exactly when the (falsy-as-empty) ref has no match. Otherwise it is the capture of the leftmost match, taken greedily. |
| ActionContext.FindFileSound | src/ActionContext.php:47 | The search finds the leftmost greedy match and finds one whenever one exists. |
| ActionContext.WorkflowNameShape | src/ActionContext.php:47-48 | A non-empty name has no `/`. It ends in `.yml` or `.yaml` after at least one character. It stands in the ref right after a `/` and right before an `@`. |
| ActionContext.WorkflowNameOfRef | src/ActionContext.php:44-52 | Take a ref `dir/` + file + `@` + rest with a single `@`, where the file is a slash-free `.yml` or `.yaml` name. Its workflow name is that file. |
| ActionContextExamples.PullRequestBranch | tests/ActionContextTest.php:12-23 | On a pull request the head ref wins over the merge ref. |
| ActionContextExamples.PushBranch | tests/ActionContextTest.php:28-39 | An empty head ref falls back to the ref name. |
| ActionContextExamples.DefaultBranch | tests/ActionContextTest.php:44-50 | With neither variable set the branch is `main`. |
| ActionContextExamples.MainYml | tests/ActionContextTest.php:55-64 | For any workflows directory without `@` and ending in `/`, such as `owner/repo/.github/workflows/`, the ref `<dir>main.yml@refs/heads/main` names `main.yml`. |
| ActionContextExamples.TestsYaml | tests/ActionContextTest.php:69-78 | The `.yaml` extension is recognised: `<dir>tests.yaml@refs/heads/main` names `tests.yaml` in any such directory. |
| ActionContextExamples.UnsetWorkflowRef | tests/ActionContextTest.php:83-88 | An unset workflow ref gives the empty name. |
| PhpUnitRunner.EscapeShellArg | src/PhpUnitRunner.php:52 | The escaped argument is a quoted word: it starts and ends with `'`. |
| PhpUnitRunner.EscapeRoundTrip | src/PhpUnitRunner.php:52 | A POSIX shell reads the escaped filter back as exactly the filter, including quotes, pipes and other shell metacharacters (for characters the locale accepts; see "## Left out"). |
| PhpUnitRunner.BuildCommand | src/PhpUnitRunner.php:44-60 | The result is the command, then ` --filter ` and the escaped filter when the filter is not empty, then a space and the arguments when they are not empty. |
| PhpUnitRunner.BuildCommandLayout | src/PhpUnitRunner.php:44-60 | The line starts with the command, and is the bare command when filter and arguments are empty. With a filter, the word after ` --filter ` reads back as the filter and is followed by a space or the end. The arguments, when present, end the line. |
| PhpUnitRunnerExamples.BareCommand | tests/PhpUnitRunnerTest.php:17-23 | Without filter or arguments the command is returned unchanged. |
| PhpUnitRunnerExamples.PipeIsQuoted | tests/PhpUnitRunnerTest.php:35-44 | A filter holding a pipe character is passed as one single-quoted word. |
| PhpUnitRunnerExamples.ArgumentsOnly | tests/PhpUnitRunnerTest.php:47-60 | Arguments alone are appended after one space, with no `--filter`. |
| PhpUnitRunnerExamples.QuoteInFilter | src/PhpUnitRunner.php:52 | A filter holding a single quote is passed as `'it'\''s'`: the quote is closed, escaped and reopened. |

## Left out

- The HTTP transport, authentication and JSON decoding (`GitHubApiClient`). They are not part of this model: the client is the two oracles above.
- Writing step outputs (`GitHubOutput`). It is I/O and not part of the core.
- `PhpUnitRunner::run`. It hands the command to `passthru` and returns the exit code, which is a process call.
- Reading the environment with `getenv`. The values are parameters of `GetBranch` and `GetWorkflowName`.
- Mocks whose answers change from call to call. The oracles are pure functions of the path, so the test at tests/FailedTestFinderTest.php:148-173, which returns two logs on consecutive calls to the same path pattern, is covered only by the general `Find` contract.
- JSON numbers beyond 64 bits and floats. `json_decode` turns them into floats, which `is_int` rejects; they are `Other` here, like booleans.
- PHP's conversion of numeric string keys to integer keys. Decoded JSON object keys here are always strings.
- PhpUnitRunner.EscapeShellArg: models the POSIX form only. The Windows form and the error PHP raises for a NUL byte are left out.
- PhpUnitRunner.EscapeShellArg: keeps every character. PHP copies a byte only when `mblen` accepts it in the current `LC_CTYPE` locale, so it silently drops ill-formed UTF-8 under a UTF-8 locale, and it raises an error for an argument longer than the command-line limit. Neither is modelled. The filters the action builds are ASCII test identifiers, which are unaffected.
- PhpUnitRunner.EscapeRoundTrip: holds of PHP only for arguments the locale accepts whole and within the length limit, for the reason above.
- PhpUnitRunner.BuildCommandLayout: the filter word reads back as the filter only under the same condition, for the reason above.
- LogParser.ExtractFailedTests: covers only PCRE's default, non-Unicode mode, with `\s` as space, tab, line feed, vertical tab, form feed and carriage return.
- Repeated keys in a decoded JSON object. A `PhpValue.Arr` may list one key twice, which a PHP array cannot. `Coalesce` then takes the first entry, whereas `json_decode` keeps the last. The GitHub API never sends an object with a repeated key.

## Findings

The pattern at src/LogParser.php:28 has no digits in its identifier classes. The project's own
test suite expects identifiers with digits to be extracted. The model keeps both
grammars: `LogParser.Charset` has `AsWritten` (the code) and `WithDigits` (the evident
intent). `FailedTestFinder.Find` and every finder lemma take the grammar as a parameter.

| source | as written | input that shows it | evidently intended | confidence | as-written member | corrected member |
|---|---|---|---|---|---|---|
| src/LogParser.php:28 | the class-name class `[A-Za-z_\\]` has no digits, so a class name containing digits never matches | `1) BrianHenryIE\Strauss\Tests\Issues\StraussIssue49Test::test_local_symlinked_repositories_fail` followed by a line `Failed.` (tests/LogParserTest.php:118-126) | the identifier is returned | high, not executed | LogParserExamples.DigitClassDropped | LogParserExamples.DigitClassExtracted |
| src/LogParser.php:28 | the method-name class `[A-Za-z_]` has no digits, so a method name is cut at its first digit | `1) FooTest::testCase2` followed by `Failed asserting that false is true.` | `FooTest::testCase2` is returned, not `FooTest::testCase` | high, not executed | LogParserExamples.MethodDigitTruncated | LogParserExamples.MethodDigitKept |
