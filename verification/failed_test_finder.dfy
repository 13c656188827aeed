/**
 `FailedTestFinder::find`: list the recent failed runs of a workflow, list the latest jobs
 of each run, download the log of every failed job, extract the failed tests from each log,
 and return them de-duplicated and sorted.

 The API client is two oracles, one per method of `GitHubApiClientInterface`, each a pure
 function of the requested path; `None` is the `null` they return on any failure. Besides
 the tests, `find` here also returns the sequence of requests it made, so that which paths
 are fetched, and in what order, can be stated.
 */
module FailedTestFinder {
  import opened Wrappers
  import opened Text
  import opened StringOrder
  import opened LogParser
  import opened PhpValue

  /** `get` returns the decoded JSON body, `getRaw` the raw body; both `None` on error. */
  datatype Api = Api(get: string -> Option<seq<Entry>>, getRaw: string -> Option<string>)

  datatype Request = Get(path: string) | GetRaw(path: string)

  /** The tests collected so far and the requests made to collect them, in order. */
  datatype Walk = Walk(tests: seq<string>, requests: seq<Request>)

  const Nothing := Walk([], [])

  /** One step after another: `array_merge` of the tests, requests in sequence. */
  function Then(a: Walk, b: Walk): Walk {
    Walk(a.tests + b.tests, a.requests + b.requests)
  }

  function RunsPath(repo: string, workflow: string, branch: string, maxRuns: int): string {
    "/repos/" + repo + "/actions/workflows/" + workflow + "/runs?status=failure&branch=" + branch
      + "&per_page=" + IntToDecimal(maxRuns)
  }

  function JobsPath(repo: string, runId: int): string {
    "/repos/" + repo + "/actions/runs/" + IntToDecimal(runId) + "/jobs?filter=latest&per_page=100"
  }

  function LogPath(repo: string, jobId: int): string {
    "/repos/" + repo + "/actions/jobs/" + IntToDecimal(jobId) + "/logs"
  }

  /** The id of a run that is an array whose `id` is an integer; other runs are skipped. */
  function RunId(run: Value): Option<int> {
    if !run.Arr? then None
    else match Coalesce(run.entries, StrKey("id"))
      case Int(id) => Some(id)
      case _ => None
  }

  /**
   The id of a job that is an array whose `id` is an integer and whose `conclusion` is
   identical to the string `failure`; other jobs are skipped.
   */
  function FailedJobId(job: Value): Option<int> {
    if !job.Arr? then None
    else match Coalesce(job.entries, StrKey("id"))
      case Int(id) => if Coalesce(job.entries, StrKey("conclusion")) == Str("failure") then Some(id) else None
      case _ => None
  }

  /**
   A run's id is read from the first entry under `id`: the run is visited exactly when that
   entry holds an integer, and with that integer; a run without such an entry is skipped.
   */
  lemma RunIdFirst(entries: seq<Entry>, i: nat)
    requires i < |entries| && entries[i].key == StrKey("id")
    requires forall j :: 0 <= j < i ==> entries[j].key != StrKey("id")
    ensures RunId(Arr(entries)).Some? <==> entries[i].val.Int?
    ensures entries[i].val.Int? ==> RunId(Arr(entries)) == Some(entries[i].val.i)
  {
    CoalesceFirst(entries, i, StrKey("id"));
  }

  lemma RunIdAbsent(entries: seq<Entry>)
    requires forall j :: 0 <= j < |entries| ==> entries[j].key != StrKey("id")
    ensures RunId(Arr(entries)) == None
  {
  }

  /**
   A job's log is requested exactly when its first `id` entry holds an integer and its
   first `conclusion` entry holds the string `failure`; the id is that integer.
   */
  lemma FailedJobIdFirst(entries: seq<Entry>, i: nat, c: nat)
    requires i < |entries| && entries[i].key == StrKey("id")
    requires forall j :: 0 <= j < i ==> entries[j].key != StrKey("id")
    requires c < |entries| && entries[c].key == StrKey("conclusion")
    requires forall j :: 0 <= j < c ==> entries[j].key != StrKey("conclusion")
    ensures FailedJobId(Arr(entries)).Some? <==> entries[i].val.Int? && entries[c].val == Str("failure")
    ensures FailedJobId(Arr(entries)).Some? ==> FailedJobId(Arr(entries)) == Some(entries[i].val.i)
  {
    CoalesceFirst(entries, i, StrKey("id"));
    CoalesceFirst(entries, c, StrKey("conclusion"));
  }

  /** A job without a `conclusion` entry is never treated as failed. */
  lemma NoConclusionNotFailed(entries: seq<Entry>)
    requires forall j :: 0 <= j < |entries| ==> entries[j].key != StrKey("conclusion")
    ensures FailedJobId(Arr(entries)) == None
  {
  }

  function VisitJob(api: Api, repo: string, job: Value, g: Charset): Walk {
    match FailedJobId(job)
    case None => Nothing
    case Some(id) =>
      var path := LogPath(repo, id);
      match api.getRaw(path)
      case None => Walk([], [GetRaw(path)])
      case Some(log) => Walk(ExtractFailedTests(log, g), [GetRaw(path)])
  }

  function VisitJobs(api: Api, repo: string, jobs: seq<Value>, g: Charset): Walk
    decreases |jobs|
  {
    if jobs == [] then Nothing
    else Then(VisitJob(api, repo, jobs[0], g), VisitJobs(api, repo, jobs[1..], g))
  }

  function VisitRun(api: Api, repo: string, run: Value, g: Charset): Walk {
    match RunId(run)
    case None => Nothing
    case Some(id) =>
      var path := JobsPath(repo, id);
      var asked := Walk([], [Get(path)]);
      match Listed(api.get(path), "jobs")
      case None => asked
      case Some(jobs) => Then(asked, VisitJobs(api, repo, jobs, g))
  }

  function VisitRuns(api: Api, repo: string, runs: seq<Value>, g: Charset): Walk
    decreases |runs|
  {
    if runs == [] then Nothing
    else Then(VisitRun(api, repo, runs[0], g), VisitRuns(api, repo, runs[1..], g))
  }

  /**
   Reference definition of the collected tests: the tests extracted from every log that
   a request in `reqs` downloaded, in request order.
   */
  function Harvest(api: Api, reqs: seq<Request>, g: Charset): seq<string>
    decreases |reqs|
  {
    if reqs == [] then [] else Fetched(api, reqs[0], g) + Harvest(api, reqs[1..], g)
  }

  /** The tests in the log a request downloaded: none for a JSON request or a failed download. */
  function Fetched(api: Api, req: Request, g: Charset): seq<string> {
    match req
    case Get(_) => []
    case GetRaw(p) => LogTests(api, p, g)
  }

  /** The tests in the log at `path`: none when the download returns `null`. */
  function LogTests(api: Api, path: string, g: Charset): seq<string> {
    match api.getRaw(path)
    case Some(log) => ExtractFailedTests(log, g)
    case None => []
  }

  /** The tests in the logs at `paths`, one log after the other. */
  function LogsTests(api: Api, paths: seq<string>, g: Charset): seq<string>
    decreases |paths|
  {
    if paths == [] then [] else LogTests(api, paths[0], g) + LogsTests(api, paths[1..], g)
  }

  lemma {:induction false} HarvestAppend(api: Api, a: seq<Request>, b: seq<Request>, g: Charset)
    ensures Harvest(api, a + b, g) == Harvest(api, a, g) + Harvest(api, b, g)
    decreases |a|
  {
    if a != [] {
      var here := Fetched(api, a[0], g);
      assert (a + b)[0] == a[0];
      assert (a + b)[1..] == a[1..] + b;
      assert Harvest(api, a + b, g) == here + Harvest(api, a[1..] + b, g);
      HarvestAppend(api, a[1..], b, g);
      assert Harvest(api, a, g) == here + Harvest(api, a[1..], g);
    } else {
      assert a + b == b;
    }
  }

  lemma {:induction false} JobsHarvest(api: Api, repo: string, jobs: seq<Value>, g: Charset)
    ensures VisitJobs(api, repo, jobs, g).tests == Harvest(api, VisitJobs(api, repo, jobs, g).requests, g)
    decreases |jobs|
  {
    if jobs != [] {
      var head := VisitJob(api, repo, jobs[0], g);
      JobsHarvest(api, repo, jobs[1..], g);
      HarvestAppend(api, head.requests, VisitJobs(api, repo, jobs[1..], g).requests, g);
    }
  }

  lemma RunHarvest(api: Api, repo: string, run: Value, g: Charset)
    ensures VisitRun(api, repo, run, g).tests == Harvest(api, VisitRun(api, repo, run, g).requests, g)
  {
    match RunId(run)
    case None =>
    case Some(id) =>
      var path := JobsPath(repo, id);
      match Listed(api.get(path), "jobs")
      case None =>
      case Some(jobs) =>
        JobsHarvest(api, repo, jobs, g);
        HarvestAppend(api, [Get(path)], VisitJobs(api, repo, jobs, g).requests, g);
  }

  lemma {:induction false} RunsHarvest(api: Api, repo: string, runs: seq<Value>, g: Charset)
    ensures VisitRuns(api, repo, runs, g).tests == Harvest(api, VisitRuns(api, repo, runs, g).requests, g)
    decreases |runs|
  {
    if runs != [] {
      RunHarvest(api, repo, runs[0], g);
      RunsHarvest(api, repo, runs[1..], g);
      HarvestAppend(api, VisitRun(api, repo, runs[0], g).requests, VisitRuns(api, repo, runs[1..], g).requests, g);
    }
  }

  /**
   `find`. The first request is always the list of failed runs; a falsy response, or one
   without an array under `workflow_runs`, ends the search with no tests. Otherwise every
   run is visited and the tests are returned strictly ascending, each one extracted from a
   log the search downloaded, and every test of every downloaded log present.
   */
  function Find(api: Api, repo: string, workflow: string, branch: string, maxRuns: int, g: Charset): (r: Walk)
    ensures |r.requests| > 0 && r.requests[0] == Get(RunsPath(repo, workflow, branch, maxRuns))
    ensures StrictlyAscending(r.tests)
    ensures forall t :: t in r.tests <==> t in Harvest(api, r.requests, g)
    ensures Listed(api.get(RunsPath(repo, workflow, branch, maxRuns)), "workflow_runs").None?
      ==> r == Walk([], [Get(RunsPath(repo, workflow, branch, maxRuns))])
  {
    var path := RunsPath(repo, workflow, branch, maxRuns);
    match Listed(api.get(path), "workflow_runs")
    case None => Walk([], [Get(path)])
    case Some(runs) =>
      var w := VisitRuns(api, repo, runs, g);
      RunsHarvest(api, repo, runs, g);
      HarvestAppend(api, [Get(path)], w.requests, g);
      Walk(UniqueSorted(w.tests), [Get(path)] + w.requests)
  }

  lemma ThenAssociative(a: Walk, b: Walk, c: Walk)
    ensures Then(Then(a, b), c) == Then(a, Then(b, c))
  {
    assert (a.tests + b.tests) + c.tests == a.tests + (b.tests + c.tests);
    assert (a.requests + b.requests) + c.requests == a.requests + (b.requests + c.requests);
  }

  lemma ThenNothing(a: Walk)
    ensures Then(Nothing, a) == a && Then(a, Nothing) == a
  {
    assert [] + a.tests == a.tests && a.tests + [] == a.tests;
    assert [] + a.requests == a.requests && a.requests + [] == a.requests;
  }

  /** Traversal distributes over concatenation of the job list. */
  lemma {:induction false} JobsAppend(api: Api, repo: string, a: seq<Value>, b: seq<Value>, g: Charset)
    ensures VisitJobs(api, repo, a + b, g) == Then(VisitJobs(api, repo, a, g), VisitJobs(api, repo, b, g))
    decreases |a|
  {
    if a == [] {
      assert a + b == b;
      ThenNothing(VisitJobs(api, repo, b, g));
    } else {
      var head := VisitJob(api, repo, a[0], g);
      assert (a + b)[0] == a[0];
      assert (a + b)[1..] == a[1..] + b;
      assert VisitJobs(api, repo, a + b, g) == Then(head, VisitJobs(api, repo, a[1..] + b, g));
      JobsAppend(api, repo, a[1..], b, g);
      ThenAssociative(head, VisitJobs(api, repo, a[1..], g), VisitJobs(api, repo, b, g));
    }
  }

  /** Traversal distributes over concatenation of the run list. */
  lemma {:induction false} RunsAppend(api: Api, repo: string, a: seq<Value>, b: seq<Value>, g: Charset)
    ensures VisitRuns(api, repo, a + b, g) == Then(VisitRuns(api, repo, a, g), VisitRuns(api, repo, b, g))
    decreases |a|
  {
    if a == [] {
      assert a + b == b;
      ThenNothing(VisitRuns(api, repo, b, g));
    } else {
      var head := VisitRun(api, repo, a[0], g);
      assert (a + b)[0] == a[0];
      assert (a + b)[1..] == a[1..] + b;
      assert VisitRuns(api, repo, a + b, g) == Then(head, VisitRuns(api, repo, a[1..] + b, g));
      RunsAppend(api, repo, a[1..], b, g);
      ThenAssociative(head, VisitRuns(api, repo, a[1..], g), VisitRuns(api, repo, b, g));
    }
  }

  lemma RunsSplit(api: Api, repo: string, before: seq<Value>, run: Value, after: seq<Value>, g: Charset)
    ensures VisitRuns(api, repo, before + [run] + after, g)
      == Then(Then(VisitRuns(api, repo, before, g), VisitRun(api, repo, run, g)), VisitRuns(api, repo, after, g))
  {
    RunsAppend(api, repo, before + [run], after, g);
    RunsAppend(api, repo, before, [run], g);
    assert [run][1..] == [];
    ThenNothing(VisitRun(api, repo, run, g));
    assert VisitRuns(api, repo, [run], g) == VisitRun(api, repo, run, g);
  }

  lemma JobsSplit(api: Api, repo: string, before: seq<Value>, job: Value, after: seq<Value>, g: Charset)
    ensures VisitJobs(api, repo, before + [job] + after, g)
      == Then(Then(VisitJobs(api, repo, before, g), VisitJob(api, repo, job, g)), VisitJobs(api, repo, after, g))
  {
    JobsAppend(api, repo, before + [job], after, g);
    JobsAppend(api, repo, before, [job], g);
    assert [job][1..] == [];
    ThenNothing(VisitJob(api, repo, job, g));
    assert VisitJobs(api, repo, [job], g) == VisitJob(api, repo, job, g);
  }

  /**
   A run that is not an array or has no integer id is skipped without a request, and the
   runs around it are visited exactly as if it were absent.
   */
  lemma SkippedRunIsInvisible(api: Api, repo: string, before: seq<Value>, run: Value, after: seq<Value>, g: Charset)
    requires !run.Arr? || !Coalesce(run.entries, StrKey("id")).Int?
    ensures VisitRuns(api, repo, before + [run] + after, g) == VisitRuns(api, repo, before + after, g)
  {
    RunsSplit(api, repo, before, run, after, g);
    RunsAppend(api, repo, before, after, g);
    assert VisitRun(api, repo, run, g) == Nothing;
    ThenNothing(VisitRuns(api, repo, before, g));
  }

  /**
   A run whose jobs response is null, empty or has no `jobs` array costs one request and
   contributes no test; the runs around it are unaffected.
   */
  lemma UnlistedRunOnlyAsks(api: Api, repo: string, before: seq<Value>, run: Value, after: seq<Value>, g: Charset)
    requires RunId(run).Some?
    requires Listed(api.get(JobsPath(repo, RunId(run).value)), "jobs").None?
    ensures var w := VisitRuns(api, repo, before + [run] + after, g);
      var b, c := VisitRuns(api, repo, before, g), VisitRuns(api, repo, after, g);
      w.tests == VisitRuns(api, repo, before + after, g).tests
      && w.requests == b.requests + [Get(JobsPath(repo, RunId(run).value))] + c.requests
  {
    RunsSplit(api, repo, before, run, after, g);
    RunsAppend(api, repo, before, after, g);
    assert VisitRun(api, repo, run, g) == Walk([], [Get(JobsPath(repo, RunId(run).value))]);
    assert VisitRuns(api, repo, before, g).tests + [] == VisitRuns(api, repo, before, g).tests;
  }

  /**
   A job that is not an array, has no integer id or did not conclude with `failure` is
   skipped without a request, and the jobs around it are visited as if it were absent.
   */
  lemma SkippedJobIsInvisible(api: Api, repo: string, before: seq<Value>, job: Value, after: seq<Value>, g: Charset)
    requires !job.Arr? || !Coalesce(job.entries, StrKey("id")).Int?
      || Coalesce(job.entries, StrKey("conclusion")) != Str("failure")
    ensures VisitJobs(api, repo, before + [job] + after, g) == VisitJobs(api, repo, before + after, g)
  {
    JobsSplit(api, repo, before, job, after, g);
    JobsAppend(api, repo, before, after, g);
    assert VisitJob(api, repo, job, g) == Nothing;
    ThenNothing(VisitJobs(api, repo, before, g));
  }

  /** A failed job whose log cannot be downloaded costs one request and contributes no test. */
  lemma UnreadableLogOnlyAsks(api: Api, repo: string, before: seq<Value>, job: Value, after: seq<Value>, g: Charset)
    requires FailedJobId(job).Some?
    requires api.getRaw(LogPath(repo, FailedJobId(job).value)).None?
    ensures var w := VisitJobs(api, repo, before + [job] + after, g);
      var b, c := VisitJobs(api, repo, before, g), VisitJobs(api, repo, after, g);
      w.tests == VisitJobs(api, repo, before + after, g).tests
      && w.requests == b.requests + [GetRaw(LogPath(repo, FailedJobId(job).value))] + c.requests
  {
    JobsSplit(api, repo, before, job, after, g);
    JobsAppend(api, repo, before, after, g);
    assert VisitJob(api, repo, job, g) == Walk([], [GetRaw(LogPath(repo, FailedJobId(job).value))]);
    assert VisitJobs(api, repo, before, g).tests + [] == VisitJobs(api, repo, before, g).tests;
  }

  /** The paths of the JSON requests in a request log. */
  function GetPaths(reqs: seq<Request>): seq<string>
    decreases |reqs|
  {
    if reqs == [] then []
    else (if reqs[0].Get? then [reqs[0].path] else []) + GetPaths(reqs[1..])
  }

  /** The paths of the raw (log) requests in a request log. */
  function RawPaths(reqs: seq<Request>): seq<string>
    decreases |reqs|
  {
    if reqs == [] then []
    else (if reqs[0].GetRaw? then [reqs[0].path] else []) + RawPaths(reqs[1..])
  }

  lemma {:induction false} GetPathsAppend(a: seq<Request>, b: seq<Request>)
    ensures GetPaths(a + b) == GetPaths(a) + GetPaths(b)
    decreases |a|
  {
    if a == [] {
      assert a + b == b;
    } else {
      var here := if a[0].Get? then [a[0].path] else [];
      assert (a + b)[0] == a[0];
      assert (a + b)[1..] == a[1..] + b;
      assert GetPaths(a + b) == here + GetPaths(a[1..] + b);
      GetPathsAppend(a[1..], b);
      assert GetPaths(a) == here + GetPaths(a[1..]);
    }
  }

  lemma {:induction false} RawPathsAppend(a: seq<Request>, b: seq<Request>)
    ensures RawPaths(a + b) == RawPaths(a) + RawPaths(b)
    decreases |a|
  {
    if a == [] {
      assert a + b == b;
    } else {
      var here := if a[0].GetRaw? then [a[0].path] else [];
      assert (a + b)[0] == a[0];
      assert (a + b)[1..] == a[1..] + b;
      assert RawPaths(a + b) == here + RawPaths(a[1..] + b);
      RawPathsAppend(a[1..], b);
      assert RawPaths(a) == here + RawPaths(a[1..]);
    }
  }

  lemma PathsAppend(a: seq<Request>, b: seq<Request>)
    ensures GetPaths(a + b) == GetPaths(a) + GetPaths(b)
    ensures RawPaths(a + b) == RawPaths(a) + RawPaths(b)
  {
    GetPathsAppend(a, b);
    RawPathsAppend(a, b);
  }

  /** The id of a run as a list: empty when the run is skipped. */
  function RunIdList(run: Value): seq<int> {
    match RunId(run) case Some(id) => [id] case None => []
  }

  /** Reference definition: the ids of the runs that are visited, in order. */
  function RunIds(runs: seq<Value>): seq<int>
    decreases |runs|
  {
    if runs == [] then [] else RunIdList(runs[0]) + RunIds(runs[1..])
  }

  /** The id of a job as a list: empty unless the job failed. */
  function FailedJobIdList(job: Value): seq<int> {
    match FailedJobId(job) case Some(id) => [id] case None => []
  }

  /** Reference definition: the ids of the failed jobs, in order. */
  function FailedJobIds(jobs: seq<Value>): seq<int>
    decreases |jobs|
  {
    if jobs == [] then [] else FailedJobIdList(jobs[0]) + FailedJobIds(jobs[1..])
  }

  /** The failed jobs of one run, when its job list can be read. */
  function FailedJobsOfRun(api: Api, repo: string, run: Value): seq<int> {
    match RunId(run)
    case None => []
    case Some(id) =>
      match Listed(api.get(JobsPath(repo, id)), "jobs")
      case None => []
      case Some(jobs) => FailedJobIds(jobs)
  }

  /** Reference definition: the failed jobs of every run whose job list could be read. */
  function FailedJobsOfRuns(api: Api, repo: string, runs: seq<Value>): seq<int>
    decreases |runs|
  {
    if runs == [] then [] else FailedJobsOfRun(api, repo, runs[0]) + FailedJobsOfRuns(api, repo, runs[1..])
  }

  /** The job-list paths of the runs `ids`, in order. */
  function JobsPaths(repo: string, ids: seq<int>): seq<string> {
    seq(|ids|, i requires 0 <= i < |ids| => JobsPath(repo, ids[i]))
  }

  /** The log paths of the jobs `ids`, in order. */
  function LogPaths(repo: string, ids: seq<int>): seq<string> {
    seq(|ids|, i requires 0 <= i < |ids| => LogPath(repo, ids[i]))
  }

  lemma LogPathsAppend(repo: string, a: seq<int>, b: seq<int>)
    ensures LogPaths(repo, a + b) == LogPaths(repo, a) + LogPaths(repo, b)
  {
  }

  lemma JobsPathsAppend(repo: string, a: seq<int>, b: seq<int>)
    ensures JobsPaths(repo, a + b) == JobsPaths(repo, a) + JobsPaths(repo, b)
  {
  }

  /**
   Within a job list, logs are downloaded for exactly the failed jobs, once each, in list
   order, and no JSON request is made.
   */
  lemma {:induction false} JobsFetchFailedLogs(api: Api, repo: string, jobs: seq<Value>, g: Charset)
    ensures RawPaths(VisitJobs(api, repo, jobs, g).requests) == LogPaths(repo, FailedJobIds(jobs))
    ensures GetPaths(VisitJobs(api, repo, jobs, g).requests) == []
    decreases |jobs|
  {
    if jobs != [] {
      var head := VisitJob(api, repo, jobs[0], g);
      var rest := VisitJobs(api, repo, jobs[1..], g);
      assert VisitJobs(api, repo, jobs, g).requests == head.requests + rest.requests;
      JobsFetchFailedLogs(api, repo, jobs[1..], g);
      JobFetches(api, repo, jobs[0], g);
      PathsAppend(head.requests, rest.requests);
      LogPathsAppend(repo, FailedJobIdList(jobs[0]), FailedJobIds(jobs[1..]));
    }
  }

  /** A job asks for its log exactly when it failed, and never for JSON. */
  lemma JobFetches(api: Api, repo: string, job: Value, g: Charset)
    ensures RawPaths(VisitJob(api, repo, job, g).requests) == LogPaths(repo, FailedJobIdList(job))
    ensures GetPaths(VisitJob(api, repo, job, g).requests) == []
  {
    match FailedJobId(job)
    case None =>
    case Some(id) =>
      assert VisitJob(api, repo, job, g).requests == [GetRaw(LogPath(repo, id))];
      assert RawPaths([GetRaw(LogPath(repo, id))]) == [LogPath(repo, id)] + RawPaths([]);
      assert GetPaths([GetRaw(LogPath(repo, id))]) == [] + GetPaths([]);
  }

  lemma RunFetches(api: Api, repo: string, run: Value, g: Charset)
    ensures GetPaths(VisitRun(api, repo, run, g).requests) == JobsPaths(repo, RunIdList(run))
    ensures RawPaths(VisitRun(api, repo, run, g).requests) == LogPaths(repo, FailedJobsOfRun(api, repo, run))
  {
    match RunId(run)
    case None =>
    case Some(id) =>
      var path := JobsPath(repo, id);
      assert GetPaths([Get(path)]) == [path] + GetPaths([]);
      match Listed(api.get(path), "jobs")
      case None =>
      case Some(jobs) =>
        JobsFetchFailedLogs(api, repo, jobs, g);
        PathsAppend([Get(path)], VisitJobs(api, repo, jobs, g).requests);
  }

  /**
   Within a run list, job lists are requested for exactly the runs with an integer id, in
   run order, and logs for exactly the failed jobs of the runs whose job list could be read.
   */
  lemma {:induction false} RunsFetch(api: Api, repo: string, runs: seq<Value>, g: Charset)
    ensures GetPaths(VisitRuns(api, repo, runs, g).requests) == JobsPaths(repo, RunIds(runs))
    ensures RawPaths(VisitRuns(api, repo, runs, g).requests) == LogPaths(repo, FailedJobsOfRuns(api, repo, runs))
    decreases |runs|
  {
    if runs != [] {
      var head := VisitRun(api, repo, runs[0], g);
      var rest := VisitRuns(api, repo, runs[1..], g);
      RunsFetch(api, repo, runs[1..], g);
      RunFetches(api, repo, runs[0], g);
      PathsAppend(head.requests, rest.requests);
      JobsPathsAppend(repo, RunIdList(runs[0]), RunIds(runs[1..]));
      LogPathsAppend(repo, FailedJobsOfRun(api, repo, runs[0]), FailedJobsOfRuns(api, repo, runs[1..]));
    }
  }

  /**
   The requests of `find`: the runs list first, then one job list per run with an integer
   id, and one log per failed job of a readable job list, and nothing else.
   */
  lemma FindFetches(api: Api, repo: string, workflow: string, branch: string, maxRuns: int, g: Charset)
    ensures var path := RunsPath(repo, workflow, branch, maxRuns);
      var listed := Listed(api.get(path), "workflow_runs");
      var r := Find(api, repo, workflow, branch, maxRuns, g);
      GetPaths(r.requests) == [path] + (if listed.Some? then JobsPaths(repo, RunIds(listed.value)) else [])
      && RawPaths(r.requests) == (if listed.Some? then LogPaths(repo, FailedJobsOfRuns(api, repo, listed.value)) else [])
  {
    var path := RunsPath(repo, workflow, branch, maxRuns);
    match Listed(api.get(path), "workflow_runs")
    case None =>
      assert GetPaths([Get(path)]) == [path] + GetPaths([]);
    case Some(runs) =>
      var w := VisitRuns(api, repo, runs, g);
      RunsFetch(api, repo, runs, g);
      PathsAppend([Get(path)], w.requests);
  }

  /**
   When every log download answers the same text, the collected tests are exactly that
   text's tests, provided at least one log was downloaded.
   */
  lemma {:induction false} HarvestOfOneLog(api: Api, reqs: seq<Request>, log: string, g: Charset)
    requires forall p :: api.getRaw(p) == Some(log)
    ensures forall t :: t in Harvest(api, reqs, g) <==> RawPaths(reqs) != [] && t in ExtractFailedTests(log, g)
    decreases |reqs|
  {
    if reqs != [] {
      HarvestOfOneLog(api, reqs[1..], log, g);
      if reqs[0].GetRaw? {
        assert api.getRaw(reqs[0].path) == Some(log);
      }
    }
  }

  /**
   `find` against a client whose every log is `log`: the result holds each test of `log`
   once, ascending, when some failed job was found, and nothing otherwise.
   */
  lemma FindOfOneLog(api: Api, repo: string, workflow: string, branch: string, maxRuns: int, log: string, g: Charset)
    requires forall p :: api.getRaw(p) == Some(log)
    ensures var r := Find(api, repo, workflow, branch, maxRuns, g);
      forall t :: t in r.tests <==> RawPaths(r.requests) != [] && t in ExtractFailedTests(log, g)
  {
    var r := Find(api, repo, workflow, branch, maxRuns, g);
    HarvestOfOneLog(api, r.requests, log, g);
  }

  /** What a request log harvests is the tests of the logs it downloaded, in download order. */
  lemma {:induction false} HarvestIsLogsTests(api: Api, reqs: seq<Request>, g: Charset)
    ensures Harvest(api, reqs, g) == LogsTests(api, RawPaths(reqs), g)
    decreases |reqs|
  {
    if reqs != [] {
      HarvestIsLogsTests(api, reqs[1..], g);
      var rest := RawPaths(reqs[1..]);
      if reqs[0].GetRaw? {
        var p := reqs[0].path;
        assert RawPaths(reqs) == [p] + rest;
        assert ([p] + rest)[0] == p && ([p] + rest)[1..] == rest;
        assert LogsTests(api, [p] + rest, g) == LogTests(api, p, g) + LogsTests(api, rest, g);
      } else {
        assert RawPaths(reqs) == [] + rest;
        assert [] + rest == rest;
        assert Fetched(api, reqs[0], g) == [];
        assert Harvest(api, reqs, g) == Fetched(api, reqs[0], g) + Harvest(api, reqs[1..], g);
        assert [] + Harvest(api, reqs[1..], g) == Harvest(api, reqs[1..], g);
      }
    }
  }

  /** Logs that all fail to download yield no tests. */
  lemma {:induction false} UnreadableLogsNoTests(api: Api, paths: seq<string>, g: Charset)
    requires forall p :: api.getRaw(p).None?
    ensures LogsTests(api, paths, g) == []
    decreases |paths|
  {
    if paths != [] {
      UnreadableLogsNoTests(api, paths[1..], g);
      assert LogTests(api, paths[0], g) == [];
    }
  }

  /**
   Reference characterisation of `find`: with a run list, the result is the tests of the
   logs of the failed jobs of the runs whose job list could be read, de-duplicated and
   sorted; without one, it is empty.
   */
  lemma FindIsReference(api: Api, repo: string, workflow: string, branch: string, maxRuns: int, g: Charset)
    ensures var listed := Listed(api.get(RunsPath(repo, workflow, branch, maxRuns)), "workflow_runs");
      Find(api, repo, workflow, branch, maxRuns, g).tests
        == if listed.Some? then UniqueSorted(LogsTests(api, LogPaths(repo, FailedJobsOfRuns(api, repo, listed.value)), g))
           else []
  {
    var path := RunsPath(repo, workflow, branch, maxRuns);
    var r := Find(api, repo, workflow, branch, maxRuns, g);
    FindFetches(api, repo, workflow, branch, maxRuns, g);
    HarvestIsLogsTests(api, r.requests, g);
    match Listed(api.get(path), "workflow_runs")
    case None =>
    case Some(runs) =>
      var reference := LogsTests(api, LogPaths(repo, FailedJobsOfRuns(api, repo, runs)), g);
      assert Harvest(api, r.requests, g) == reference;
      AscendingUnique(r.tests, UniqueSorted(reference));
  }

  /** No failed job in any readable run: nothing is found. */
  lemma NoFailedJobsFindsNothing(api: Api, repo: string, workflow: string, branch: string, maxRuns: int, g: Charset)
    requires var listed := Listed(api.get(RunsPath(repo, workflow, branch, maxRuns)), "workflow_runs");
      listed.Some? ==> FailedJobsOfRuns(api, repo, listed.value) == []
    ensures Find(api, repo, workflow, branch, maxRuns, g).tests == []
  {
    FindIsReference(api, repo, workflow, branch, maxRuns, g);
    assert LogPaths(repo, []) == [];
    assert UniqueSorted([]) == [];
  }

  /** Every log download returning `null`: nothing is found. */
  lemma UnreadableLogsFindNothing(api: Api, repo: string, workflow: string, branch: string, maxRuns: int, g: Charset)
    requires forall p :: api.getRaw(p).None?
    ensures Find(api, repo, workflow, branch, maxRuns, g).tests == []
  {
    FindIsReference(api, repo, workflow, branch, maxRuns, g);
    var listed := Listed(api.get(RunsPath(repo, workflow, branch, maxRuns)), "workflow_runs");
    if listed.Some? {
      UnreadableLogsNoTests(api, LogPaths(repo, FailedJobsOfRuns(api, repo, listed.value)), g);
      assert UniqueSorted([]) == [];
    }
  }

  /** A number written between a fixed prefix and suffix can be read back. */
  lemma FramedNumberInjective(pre: string, suf: string, a: int, b: int)
    requires pre + IntToDecimal(a) + suf == pre + IntToDecimal(b) + suf
    ensures a == b
  {
    var s := pre + IntToDecimal(a) + suf;
    var t := pre + IntToDecimal(b) + suf;
    assert |IntToDecimal(a)| == |IntToDecimal(b)|;
    assert IntToDecimal(a) == s[|pre|..|s| - |suf|];
    assert IntToDecimal(b) == t[|pre|..|t| - |suf|];
    IntToDecimalRoundTrip(a);
    IntToDecimalRoundTrip(b);
  }

  /** Distinct jobs have distinct log paths, so no log is requested twice for two jobs. */
  lemma LogPathInjective(repo: string, a: int, b: int)
    ensures LogPath(repo, a) == LogPath(repo, b) <==> a == b
  {
    if LogPath(repo, a) == LogPath(repo, b) {
      FramedNumberInjective("/repos/" + repo + "/actions/jobs/", "/logs", a, b);
    }
  }

  /** Distinct runs have distinct job-list paths. */
  lemma JobsPathInjective(repo: string, a: int, b: int)
    ensures JobsPath(repo, a) == JobsPath(repo, b) <==> a == b
  {
    if JobsPath(repo, a) == JobsPath(repo, b) {
      FramedNumberInjective("/repos/" + repo + "/actions/runs/", "/jobs?filter=latest&per_page=100", a, b);
    }
  }
}
