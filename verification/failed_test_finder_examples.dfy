/** The requests and results the project's test suite expects of `find`. */
module FailedTestFinderExamples {
  import opened Wrappers
  import opened Text
  import opened LogParser
  import opened PhpValue
  import opened StringOrder
  import opened FailedTestFinder
  import opened LogParserExamples

  const Repo := "owner/repo"

  lemma OneDigit(d: nat)
    requires d < 10
    ensures IntToDecimal(d) == [DigitChar(d)]
  {
  }

  lemma TwoDigits(a: nat, b: nat)
    requires 0 < a < 10 && b < 10
    ensures IntToDecimal(10 * a + b) == [DigitChar(a), DigitChar(b)]
  {
    assert (10 * a + b) / 10 == a && (10 * a + b) % 10 == b;
    assert NatToDecimal(a) == [DigitChar(a)];
    assert NatToDecimal(10 * a + b) == NatToDecimal(a) + [DigitChar(b)];
  }

  lemma RepoPrefix()
    ensures "/repos/" + Repo == "/repos/owner/repo"
  {
  }

  lemma WorkflowFile()
    ensures "/actions/workflows/" + "ci.yml" == "/actions/workflows/ci.yml"
  {
  }

  lemma RunsPathFront()
    ensures "/repos/" + Repo + "/actions/workflows/" + "ci.yml" == "/repos/owner/repo/actions/workflows/ci.yml"
  {
    RepoPrefix();
    WorkflowFile();
    assert "/repos/" + Repo + "/actions/workflows/" + "ci.yml" == ("/repos/" + Repo) + ("/actions/workflows/" + "ci.yml");
  }

  lemma RunsPathBack()
    ensures "/runs?status=failure&branch=" + "develop" + "&per_page=" + "3" == "/runs?status=failure&branch=develop&per_page=3"
  {
  }

  /** The runs listing requested for `ci.yml` on `develop`, three runs at most. */
  lemma RunsPathOfTest()
    ensures RunsPath(Repo, "ci.yml", "develop", 3)
      == "/repos/owner/repo/actions/workflows/ci.yml" + "/runs?status=failure&branch=develop&per_page=3"
  {
    OneDigit(3);
    assert DigitChar(3) == '3';
    RunsPathFront();
    RunsPathBack();
  }

  lemma LogPathOfTest()
    ensures LogPath(Repo, 20) == "/repos/owner/repo/actions/jobs/20/logs"
  {
    TwoDigits(2, 0);
    assert DigitChar(2) == '2' && DigitChar(0) == '0';
  }

  /** When the runs listing fails nothing else is requested and nothing is found. */
  lemma RunsListingFails(g: Charset)
    ensures Find(Api(p => None, p => None), Repo, "main.yml", "main", 5, g)
      == Walk([], [Get(RunsPath(Repo, "main.yml", "main", 5))])
  {
  }

  /** An empty runs list: the only request is the listing, and nothing is found. */
  lemma NoFailedRuns(g: Charset)
    ensures var api := Api(p => Some([Entry(StrKey("workflow_runs"), Arr([]))]), p => None);
      Find(api, Repo, "main.yml", "main", 5, g) == Walk([], [Get(RunsPath(Repo, "main.yml", "main", 5))])
  {
    var api := Api(p => Some([Entry(StrKey("workflow_runs"), Arr([]))]), p => None);
    var runs := Listed(api.get(RunsPath(Repo, "main.yml", "main", 5)), "workflow_runs");
    assert runs == Some([]);
  }

  function Run(id: int): Value {
    Arr([Entry(StrKey("id"), Int(id))])
  }

  function Job(id: int, conclusion: string): Value {
    Arr([Entry(StrKey("id"), Int(id)), Entry(StrKey("conclusion"), Str(conclusion))])
  }

  /** A decoded JSON list: its values under the keys 0, 1, 2, ... */
  function JsonList(vs: seq<Value>): (a: seq<Entry>)
    ensures Values(a) == vs
  {
    seq(|vs|, i requires 0 <= i < |vs| => Entry(IntKey(i), vs[i]))
  }

  /**
   The client of the suite's mocks: the listing of runs answers `runs`, every other JSON
   request answers the job list `jobs`, and every log request answers `log`.
   */
  function MockApi(runsPath: string, runs: seq<Value>, jobs: seq<Value>, log: Option<string>): Api {
    Api(
      p => if p == runsPath
        then Some([Entry(StrKey("workflow_runs"), Arr(JsonList(runs)))])
        else Some([Entry(StrKey("jobs"), Arr(JsonList(jobs)))]),
      p => log)
  }

  lemma RunsListed(runsPath: string, runs: seq<Value>, jobs: seq<Value>, log: Option<string>)
    ensures Listed(MockApi(runsPath, runs, jobs, log).get(runsPath), "workflow_runs") == Some(runs)
  {
  }

  lemma JobsListed(runsPath: string, p: string, runs: seq<Value>, jobs: seq<Value>, log: Option<string>)
    requires p != runsPath
    ensures Listed(MockApi(runsPath, runs, jobs, log).get(p), "jobs") == Some(jobs)
  {
  }

  lemma JobsPathIsNotRunsPath(repo: string, id: int, workflow: string, branch: string, maxRuns: int)
    ensures JobsPath(repo, id) != RunsPath(repo, workflow, branch, maxRuns)
  {
    var k := |"/repos/" + repo + "/actions/"|;
    assert JobsPath(repo, id)[k] == 'r';
    assert RunsPath(repo, workflow, branch, maxRuns)[k] == 'w';
  }

  const TwoJobs := [Job(10, "success"), Job(20, "failure")]

  lemma OnlyJobTwentyFailed()
    ensures FailedJobIds(TwoJobs) == [20]
  {
    assert FailedJobId(TwoJobs[0]) == None;
    assert FailedJobId(TwoJobs[1]) == Some(20);
    assert TwoJobs[1..][1..] == [];
  }

  /** Of a succeeded and a failed job, only the log of the failed one is downloaded, once. */
  lemma OnlyFailedJobLogFetched(repo: string, workflow: string, branch: string, maxRuns: int, log: Option<string>, g: Charset)
    ensures var api := MockApi(RunsPath(repo, workflow, branch, maxRuns), [Run(1)], TwoJobs, log);
      RawPaths(Find(api, repo, workflow, branch, maxRuns, g).requests) == [LogPath(repo, 20)]
  {
    var path := RunsPath(repo, workflow, branch, maxRuns);
    var api := MockApi(path, [Run(1)], TwoJobs, log);
    FindFetches(api, repo, workflow, branch, maxRuns, g);
    RunsListed(path, [Run(1)], TwoJobs, log);
    FailedJobsOfTwoJobs(repo, workflow, branch, maxRuns, log);
    assert LogPaths(repo, [20]) == [LogPath(repo, 20)];
  }

  /** The failed jobs of the one run of `OnlyFailedJobLogFetched`: job 20 alone. */
  lemma FailedJobsOfTwoJobs(repo: string, workflow: string, branch: string, maxRuns: int, log: Option<string>)
    ensures var api := MockApi(RunsPath(repo, workflow, branch, maxRuns), [Run(1)], TwoJobs, log);
      FailedJobsOfRuns(api, repo, [Run(1)]) == [20]
  {
    var path := RunsPath(repo, workflow, branch, maxRuns);
    var runs := [Run(1)];
    var api := MockApi(path, runs, TwoJobs, log);
    assert RunId(runs[0]) == Some(1);
    JobsPathIsNotRunsPath(repo, 1, workflow, branch, maxRuns);
    JobsListed(path, JobsPath(repo, 1), runs, TwoJobs, log);
    OnlyJobTwentyFailed();
    assert FailedJobsOfRun(api, repo, runs[0]) == [20];
    assert runs[1..] == [];
    assert FailedJobsOfRuns(api, repo, runs) == [20] + [];
  }

  /** The first run's job list is readable and holds one failed job. */
  lemma FirstRunFailed(repo: string, workflow: string, branch: string, maxRuns: int, id: int, runs: seq<Value>, log: Option<string>)
    ensures var api := MockApi(RunsPath(repo, workflow, branch, maxRuns), runs, [Job(10, "failure")], log);
      FailedJobsOfRun(api, repo, Run(id)) == [10]
  {
    var path := RunsPath(repo, workflow, branch, maxRuns);
    var jobs := [Job(10, "failure")];
    assert RunId(Run(id)) == Some(id);
    JobsPathIsNotRunsPath(repo, id, workflow, branch, maxRuns);
    JobsListed(path, JobsPath(repo, id), runs, jobs, log);
    assert FailedJobId(jobs[0]) == Some(10);
    assert FailedJobIds(jobs) == [10] + FailedJobIds([]);
  }

  /** With a failed job in the first run, at least one log is downloaded. */
  lemma SomeLogFetched(repo: string, workflow: string, branch: string, maxRuns: int, id: int, more: seq<Value>, log: Option<string>, g: Charset)
    ensures var api := MockApi(RunsPath(repo, workflow, branch, maxRuns), [Run(id)] + more, [Job(10, "failure")], log);
      RawPaths(Find(api, repo, workflow, branch, maxRuns, g).requests) != []
  {
    var path := RunsPath(repo, workflow, branch, maxRuns);
    var runs, jobs := [Run(id)] + more, [Job(10, "failure")];
    var api := MockApi(path, runs, jobs, log);
    FindFetches(api, repo, workflow, branch, maxRuns, g);
    RunsListed(path, runs, jobs, log);
    FirstRunFailed(repo, workflow, branch, maxRuns, id, runs, log);
    assert runs[0] == Run(id) && runs[1..] == more;
    assert FailedJobsOfRuns(api, repo, runs) == [10] + FailedJobsOfRuns(api, repo, more);
    assert LogPaths(repo, FailedJobsOfRuns(api, repo, runs))[0] == LogPath(repo, 10);
  }

  /**
   With a failed job in the first run, whatever the other runs, and one log for every job,
   the result is that log's tests, once each, ascending.
   */
  lemma FoundOfOneLog(repo: string, workflow: string, branch: string, maxRuns: int, id: int, more: seq<Value>, log: string, g: Charset)
    ensures var api := MockApi(RunsPath(repo, workflow, branch, maxRuns), [Run(id)] + more, [Job(10, "failure")], Some(log));
      var r := Find(api, repo, workflow, branch, maxRuns, g);
      StrictlyAscending(r.tests) && forall t :: t in r.tests <==> t in ExtractFailedTests(log, g)
  {
    var api := MockApi(RunsPath(repo, workflow, branch, maxRuns), [Run(id)] + more, [Job(10, "failure")], Some(log));
    SomeLogFetched(repo, workflow, branch, maxRuns, id, more, Some(log), g);
    FindOfOneLog(api, repo, workflow, branch, maxRuns, log, g);
  }

  /** A failure listed in the one failed job of one run is found. */
  lemma SingleJobLog(g: Charset)
    ensures var api := MockApi(RunsPath(Repo, "main.yml", "main", 5), [Run(1)], [Job(10, "failure")],
        Some("There was 1 failure:\n\n" + "1) " + FooSomething + FailedLine));
      Find(api, Repo, "main.yml", "main", 5, g).tests == [FooSomething]
  {
    var log := "There was 1 failure:\n\n" + "1) " + FooSomething + FailedLine;
    FoundOfOneLog(Repo, "main.yml", "main", 5, 1, [], log, g);
    assert [Run(1)] + [] == [Run(1)];
    SingleNamespacedFailure(g);
    AscendingUnique(Find(MockApi(RunsPath(Repo, "main.yml", "main", 5), [Run(1)], [Job(10, "failure")], Some(log)),
      Repo, "main.yml", "main", 5, g).tests, [FooSomething]);
  }

  /** The same failure in the logs of two runs is reported once. */
  lemma DeduplicatedAcrossRuns(g: Charset)
    ensures var api := MockApi(RunsPath(Repo, "main.yml", "main", 5), [Run(1), Run(2)], [Job(10, "failure")],
        Some("1) " + FooSomething + "\nFailed."));
      Find(api, Repo, "main.yml", "main", 5, g).tests == [FooSomething]
  {
    var log := "1) " + FooSomething + "\nFailed.";
    FoundOfOneLog(Repo, "main.yml", "main", 5, 1, [Run(2)], log, g);
    assert [Run(1)] + [Run(2)] == [Run(1), Run(2)];
    ShortFooFailure(g);
    AscendingUnique(Find(MockApi(RunsPath(Repo, "main.yml", "main", 5), [Run(1), Run(2)], [Job(10, "failure")], Some(log)),
      Repo, "main.yml", "main", 5, g).tests, [FooSomething]);
  }

  /** A strictly ascending list of `b` and `a`, in either order given, is `[a, b]` when `a` sorts first. */
  lemma AscendingPair(xs: seq<string>, a: string, b: string)
    requires StrictlyAscending(xs) && Less(a, b)
    requires forall t :: t in xs <==> t in [b, a]
    ensures xs == [a, b]
  {
    AscendingUnique(xs, [a, b]);
  }

  lemma AFirstBeforeZLast()
    ensures Less(AFirst, ZLast)
  {
    var k := |"Acme\\Tests\\"|;
    assert AFirst[..k] == ZLast[..k];
    assert AFirst[k] == 'A' && ZLast[k] == 'Z';
    LessAtFirstDifference(AFirst, ZLast, k);
  }

  /** Failures listed out of order are returned sorted. */
  lemma SortedResult(g: Charset)
    ensures var api := MockApi(RunsPath(Repo, "main.yml", "main", 5), [Run(1)], [Job(10, "failure")],
        Some("1) " + ZLast + "\n" + "2) " + AFirst));
      Find(api, Repo, "main.yml", "main", 5, g).tests == [AFirst, ZLast]
  {
    var log := "1) " + ZLast + "\n" + "2) " + AFirst;
    FoundOfOneLog(Repo, "main.yml", "main", 5, 1, [], log, g);
    assert [Run(1)] + [] == [Run(1)];
    LogOrderKept(g);
    AFirstBeforeZLast();
    AscendingPair(Find(MockApi(RunsPath(Repo, "main.yml", "main", 5), [Run(1)], [Job(10, "failure")], Some(log)),
      Repo, "main.yml", "main", 5, g).tests, AFirst, ZLast);
  }
}
