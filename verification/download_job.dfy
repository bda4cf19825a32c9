/** `download_model`: one download job driven by a JSON configuration.
    It validates the repository id, then either fetches the listed files one
    by one — querying every size first and reporting cumulative progress — or
    fetches the whole repository as a snapshot. The hub is a collaborator the
    model does not see into: its size queries, per-file transfers and the
    snapshot transfer are given as answers. */
module DownloadJob {
  import opened Wrappers
  import Text
  import Progress

  const DefaultLocalDir: string := "/workspace/models"
  const RepoIdRequired: string := "repo_id is required"
  const StartingLabel: string := "Starting download..."
  const RepoStartingLabel: string := "Starting repository download..."
  const CompleteLabel: string := "Complete"

  /** The `files` entry of the configuration: absent, present but not a list
      (a string, a number, an object), or a list of file names. */
  datatype FilesField = Missing | NotAList | FileList(names: seq<string>)

  /** The job configuration. `None` stands for a key that is absent. */
  datatype Config = Config(
    repoId: Option<string>,
    files: FilesField,
    localDir: Option<string>,
    token: Option<string>,
    progressFile: Option<string>)

  /** What the hub answers when asked for a file's size. */
  datatype SizeQuery = Size(bytes: nat) | QueryFailed

  /** The end of one transfer: the local path it returns, or the text of the
      exception it raised. */
  datatype Transfer = Fetched(path: string) | Raised(message: string)

  /** The hub's answers for this job: a size query and a transfer per file
      name, and the transfer of the whole repository. */
  datatype Hub = Hub(sizeOf: string -> SizeQuery, fetch: string -> Transfer, snapshot: Transfer)

  /** How the job ends: rejected before any download, all listed files
      fetched (their local paths and their count), the repository fetched
      (its path and the local directory used), or failed with an error. */
  datatype JobOutcome =
    | Rejected(error: string)
    | FilesDownloaded(files: seq<string>, count: nat)
    | RepoDownloaded(path: string, localDir: string)
    | Failed(error: string)

  /** `not repo_id` is false: the id is present and non-empty. */
  predicate HasRepoId(c: Config)
  {
    c.repoId.Some? && c.repoId.value != ""
  }

  /** Per-file mode is chosen for a non-empty list; anything else, including
      an empty list, selects a snapshot download. */
  predicate PerFileMode(files: FilesField)
  {
    files.FileList? && |files.names| > 0
  }

  function LocalDir(c: Config): string
  {
    c.localDir.GetOr(DefaultLocalDir)
  }

  /** `get_remote_file_size`: the reported size, or 0 when the query raised. */
  function RemoteSize(q: SizeQuery): nat
  {
    match q
    case Size(n) => n
    case QueryFailed => 0
  }

  /** The expected size of every listed file, in list order. */
  function ExpectedSizes(files: seq<string>, hub: Hub): (sizes: seq<nat>)
    ensures |sizes| == |files|
    ensures forall i | 0 <= i < |files| :: sizes[i] == RemoteSize(hub.sizeOf(files[i]))
  {
    if |files| == 0 then []
    else ExpectedSizes(files[..|files| - 1], hub) + [RemoteSize(hub.sizeOf(files[|files| - 1]))]
  }

  /** The sum of the first `n` sizes. */
  function PrefixSum(xs: seq<nat>, n: nat): nat
    requires n <= |xs|
  {
    if n == 0 then 0 else PrefixSum(xs, n - 1) + xs[n - 1]
  }

  function Sum(xs: seq<nat>): nat
  {
    PrefixSum(xs, |xs|)
  }

  /** Prefix sums of sizes never decrease, so none exceeds the sum of all
      sizes. */
  lemma {:induction false} PrefixSumLe(xs: seq<nat>, i: nat, j: nat)
    requires i <= j <= |xs|
    ensures PrefixSum(xs, i) <= PrefixSum(xs, j)
    decreases j - i
  {
    if i < j {
      PrefixSumLe(xs, i, j - 1);
    }
  }

  /** Index of the first listed file whose transfer raises, if any. */
  function FirstFailure(files: seq<string>, hub: Hub): (k: Option<nat>)
    ensures k.Some? ==> k.value < |files| && hub.fetch(files[k.value]).Raised?
    ensures forall j | 0 <= j < |files| && (k.None? || j < k.value) :: hub.fetch(files[j]).Fetched?
  {
    if |files| == 0 then None
    else if hub.fetch(files[0]).Raised? then Some(0)
    else match FirstFailure(files[1..], hub)
      case None => None
      case Some(k) => Some(k + 1)
  }

  /** What a per-file progress record announces: file `index` of `count`
      starting, or a file completed. */
  datatype Stage = Downloading(name: string, index: nat, count: nat) | Completed(name: string)

  /** The label text written for a stage. */
  function StageLabel(stage: Stage): (s: string)
    ensures Text.StartsWith(s, if stage.Downloading? then "Downloading " else "Completed ")
    ensures stage.Completed? ==> s == "Completed " + stage.name
    ensures stage.Downloading? ==>
      Text.StartsWith(s, "Downloading " + stage.name + " (") && Text.EndsWith(s, ")...")
  {
    match stage
    case Downloading(name, index, count) =>
      "Downloading " + name + " (" + Text.NatToString(index + 1) + "/" + Text.NatToString(count) + ")..."
    case Completed(name) =>
      "Completed " + name
  }

  /** Step 1 of per-file mode: ask the hub for every size; a failed query
      counts as 0 and the loop carries on. */
  method QuerySizes(files: seq<string>, hub: Hub) returns (sizes: seq<nat>, total: nat)
    ensures sizes == ExpectedSizes(files, hub)
    ensures total == Sum(sizes)
  {
    ghost var expected := ExpectedSizes(files, hub);
    sizes, total := [], 0;
    for i := 0 to |files|
      invariant sizes == expected[..i]
      invariant total == PrefixSum(expected, i)
    {
      var size := RemoteSize(hub.sizeOf(files[i]));
      sizes, total := sizes + [size], total + size;
    }
    assert sizes == expected;
  }

  /** The arguments of one `update_progress` call made by the per-file loop:
      the bytes counted so far and the stage. The loop always passes the job
      total and no speed or ETA. */
  datatype Report = Report(downloaded: nat, stage: Stage)

  /** The report made as file `j` starts: the expected bytes of the files
      before it. */
  function StartReport(files: seq<string>, sizes: seq<nat>, j: nat): Report
    requires j < |files| == |sizes|
  {
    Report(PrefixSum(sizes, j), Downloading(files[j], j, |files|))
  }

  /** The reports of the first `n` files when all of them complete: a start
      report and a completion report per file. */
  function Reports(files: seq<string>, sizes: seq<nat>, n: nat): (rs: seq<Report>)
    requires n <= |files| == |sizes|
    ensures |rs| == 2 * n
  {
    if n == 0 then []
    else Reports(files, sizes, n - 1)
         + [StartReport(files, sizes, n - 1), Report(PrefixSum(sizes, n), Completed(files[n - 1]))]
  }

  /** Report `2j` announces file `j` with the bytes of files `0..j-1`;
      report `2j + 1` completes it with the bytes of files `0..j`. */
  lemma {:induction false} ReportsAt(files: seq<string>, sizes: seq<nat>, n: nat, j: nat)
    requires n <= |files| == |sizes|
    requires j < n
    ensures Reports(files, sizes, n)[2 * j] == Report(PrefixSum(sizes, j), Downloading(files[j], j, |files|))
    ensures Reports(files, sizes, n)[2 * j + 1] == Report(PrefixSum(sizes, j + 1), Completed(files[j]))
    decreases n
  {
    if j < n - 1 {
      ReportsAt(files, sizes, n - 1, j);
    }
  }

  /** Each report counts at least as many bytes as the one before it, and
      none counts more than `bound`. */
  ghost predicate Ascending(reports: seq<Report>, bound: nat)
  {
    && (forall a | 0 < a < |reports| :: reports[a - 1].downloaded <= reports[a].downloaded)
    && (forall a | 0 <= a < |reports| :: reports[a].downloaded <= bound)
  }

  /** The reports of completed files ascend and never pass the bytes of the
      files counted so far. */
  lemma {:induction false} ReportsAscend(files: seq<string>, sizes: seq<nat>, n: nat)
    requires n <= |files| == |sizes|
    ensures Ascending(Reports(files, sizes, n), PrefixSum(sizes, n))
    decreases n
  {
    if n > 0 {
      ReportsAscend(files, sizes, n - 1);
      var rs := Reports(files, sizes, n);
      var prev := Reports(files, sizes, n - 1);
      assert rs[..2 * n - 2] == prev;
      forall a | 0 < a < |rs|
        ensures rs[a - 1].downloaded <= rs[a].downloaded
      {
        if a < 2 * n - 2 {
          assert rs[a - 1] == prev[a - 1] && rs[a] == prev[a];
        } else if a == 2 * n - 2 {
          assert rs[a - 1] == prev[a - 1];
        }
      }
    }
  }

  /** Ascending reports stay ascending when a report counting at least as
      much as all of them is added, under a bound that covers it. */
  lemma AscendingAppend(reports: seq<Report>, bound: nat, r: Report, bound': nat)
    requires Ascending(reports, bound)
    requires bound <= r.downloaded <= bound'
    ensures Ascending(reports + [r], bound')
  {
  }

  /** Step 2 of per-file mode: fetch the files in order, stopping at the
      first transfer that raises. Every file fetched contributes its start
      and completion reports; the failing file contributes only its start
      report. */
  method FetchAll(files: seq<string>, sizes: seq<nat>, hub: Hub)
    returns (outcome: JobOutcome, reports: seq<Report>, attempted: nat)
    requires |sizes| == |files|
    ensures attempted <= |files|
    ensures outcome.FilesDownloaded? || outcome.Failed?
    ensures outcome.FilesDownloaded? ==>
      && attempted == |files|
      && outcome.count == |outcome.files| == |files|
      && (forall j | 0 <= j < |files| :: hub.fetch(files[j]) == Fetched(outcome.files[j]))
      && reports == Reports(files, sizes, |files|)
    ensures outcome.Failed? ==>
      && 0 < attempted
      && hub.fetch(files[attempted - 1]) == Raised(outcome.error)
      && (forall j | 0 <= j < attempted - 1 :: hub.fetch(files[j]).Fetched?)
      && reports == Reports(files, sizes, attempted - 1) + [StartReport(files, sizes, attempted - 1)]
  {
    var cumulative := 0;
    var paths := [];
    reports := [];
    var i := 0;
    while i < |files|
      invariant 0 <= i <= |files|
      invariant cumulative == PrefixSum(sizes, i)
      invariant |paths| == i
      invariant forall j | 0 <= j < i :: hub.fetch(files[j]) == Fetched(paths[j])
      invariant reports == Reports(files, sizes, i)
    {
      var start := Report(cumulative, Downloading(files[i], i, |files|));
      var transfer := hub.fetch(files[i]);
      if transfer.Raised? {
        outcome, reports, attempted := Failed(transfer.message), reports + [start], i + 1;
        return;
      }
      paths := paths + [transfer.path];
      cumulative := cumulative + sizes[i];
      reports := reports + [start, Report(cumulative, Completed(files[i]))];
      i := i + 1;
    }
    outcome, attempted := FilesDownloaded(paths, |paths|), |files|;
  }

  /** A file whose transfer raises after all earlier ones succeeded is the
      first failure. */
  lemma {:induction false} FirstFailureAt(files: seq<string>, hub: Hub, k: nat)
    requires k < |files| && hub.fetch(files[k]).Raised?
    requires forall j | 0 <= j < k :: hub.fetch(files[j]).Fetched?
    ensures FirstFailure(files, hub) == Some(k)
    decreases k
  {
    if k > 0 {
      assert hub.fetch(files[0]).Fetched?;
      FirstFailureAt(files[1..], hub, k - 1);
    }
  }

  /** When every transfer succeeds there is no first failure. */
  lemma {:induction false} NoFirstFailure(files: seq<string>, hub: Hub)
    requires forall j | 0 <= j < |files| :: hub.fetch(files[j]).Fetched?
    ensures FirstFailure(files, hub) == None
    decreases |files|
  {
    if |files| > 0 {
      assert hub.fetch(files[0]).Fetched?;
      NoFirstFailure(files[1..], hub);
    }
  }

  /** What per-file mode promises about the outcome: every file fetched in
      request order, or the error of the first failing file with no later
      file attempted. */
  ghost predicate PerFileOutcome(files: seq<string>, hub: Hub, outcome: JobOutcome, attempted: seq<string>)
  {
    match FirstFailure(files, hub)
    case None =>
      && attempted == files
      && outcome.FilesDownloaded?
      && outcome.count == |outcome.files| == |files|
      && forall i | 0 <= i < |files| :: outcome.files[i] == hub.fetch(files[i]).path
    case Some(k) =>
      attempted == files[..k + 1] && outcome == Failed(hub.fetch(files[k]).message)
  }

  /** What per-file mode promises about the records after the first one:
      record `2j + 1`, written as file `j` starts, counts the expected sizes
      of files `0..j-1`; record `2j + 2`, written when it completes, those of
      files `0..j`; all of them against the job total, the sum of all
      expected sizes. */
  ghost predicate PerFileTrace(sizes: seq<nat>, trace: seq<Progress.ProgressRecord>)
  {
    && (forall j | 0 <= j < |sizes| && 2 * j + 1 < |trace| :: trace[2 * j + 1].downloaded == PrefixSum(sizes, j))
    && (forall j | 0 <= j < |sizes| && 2 * j + 2 < |trace| :: trace[2 * j + 2].downloaded == PrefixSum(sizes, j + 1))
    && (forall m | 1 <= m < |trace| :: trace[m].total == Sum(sizes))
  }

  /** Each progress record counts at least as many bytes as the one before
      it, and none reports more than its own total. */
  ghost predicate Orderly(trace: seq<Progress.ProgressRecord>)
  {
    && (forall i | 0 <= i < |trace| :: trace[i].downloaded <= trace[i].total && trace[i].percent <= 99)
    && (forall i | 0 < i < |trace| :: trace[i - 1].downloaded <= trace[i].downloaded)
  }

  /** In an orderly trace no later record counts fewer bytes than an
      earlier one. */
  lemma {:induction false} OrderlyNeverGoesBack(trace: seq<Progress.ProgressRecord>, i: nat, j: nat)
    requires Orderly(trace)
    requires i <= j < |trace|
    ensures trace[i].downloaded <= trace[j].downloaded
    decreases j - i
  {
    if i < j {
      OrderlyNeverGoesBack(trace, i, j - 1);
    }
  }

  /** The record one report becomes: its count against the job total,
      with no speed or ETA. */
  function RecordOf(r: Report, total: nat): Progress.ProgressRecord
  {
    Progress.Record(r.downloaded, total, StageLabel(r.stage), 0.0, 0.0)
  }

  /** The records the per-file job writes: the start record, then one per
      report. */
  function JobRecords(reports: seq<Report>, total: nat): (trace: seq<Progress.ProgressRecord>)
    ensures |trace| == |reports| + 1
  {
    seq(|reports| + 1, m requires 0 <= m <= |reports| =>
      if m == 0 then Progress.Record(0, 100, StartingLabel, 0.0, 0.0) else RecordOf(reports[m - 1], total))
  }

  /** Ascending reports within the total make an orderly trace. */
  lemma RecordsOrderly(reports: seq<Report>, total: nat)
    requires Ascending(reports, total)
    ensures Orderly(JobRecords(reports, total))
  {
  }

  /** The reports of a per-file run that completed `n` files, and also
      started file `n` when `failed`. */
  function RunReports(files: seq<string>, sizes: seq<nat>, n: nat, failed: bool): seq<Report>
    requires n <= |files| == |sizes|
    requires failed ==> n < |files|
  {
    Reports(files, sizes, n) + (if failed then [StartReport(files, sizes, n)] else [])
  }

  /** Fetching all files, or up to the first failure, gives ascending reports
      within the sum of all expected sizes. */
  lemma FetchReportsAscend(files: seq<string>, sizes: seq<nat>, n: nat, failed: bool)
    requires n <= |files| == |sizes|
    requires failed ==> n < |files|
    ensures Ascending(RunReports(files, sizes, n, failed), Sum(sizes))
  {
    ReportsAscend(files, sizes, n);
    var bound := if failed then n + 1 else n;
    PrefixSumLe(sizes, bound, |sizes|);
    PrefixSumLe(sizes, n, bound);
    if failed {
      AscendingAppend(Reports(files, sizes, n), PrefixSum(sizes, n), StartReport(files, sizes, n), Sum(sizes));
    } else {
      assert Reports(files, sizes, n) + [] == Reports(files, sizes, n);
    }
  }

  /** The reports' byte counts at the positions `PerFileTrace` names. */
  lemma FetchReportsAt(files: seq<string>, sizes: seq<nat>, n: nat, failed: bool, j: nat)
    requires n <= |files| == |sizes|
    requires failed ==> n < |files|
    requires j < |files|
    ensures var rs := RunReports(files, sizes, n, failed);
      && (2 * j < |rs| ==> rs[2 * j].downloaded == PrefixSum(sizes, j))
      && (2 * j + 1 < |rs| ==> rs[2 * j + 1].downloaded == PrefixSum(sizes, j + 1))
  {
    if j < n {
      ReportsAt(files, sizes, n, j);
    }
  }

  /** The records of such a run: the start record, then one per report,
      each against the sum of all expected sizes. */
  function RunTrace(files: seq<string>, sizes: seq<nat>, n: nat, failed: bool): seq<Progress.ProgressRecord>
    requires n <= |files| == |sizes|
    requires failed ==> n < |files|
  {
    JobRecords(RunReports(files, sizes, n, failed), Sum(sizes))
  }

  /** The records of a run are an orderly trace. */
  lemma RunTraceOrderly(files: seq<string>, sizes: seq<nat>, n: nat, failed: bool)
    requires n <= |files| == |sizes|
    requires failed ==> n < |files|
    ensures Orderly(RunTrace(files, sizes, n, failed))
  {
    FetchReportsAscend(files, sizes, n, failed);
    RecordsOrderly(RunReports(files, sizes, n, failed), Sum(sizes));
  }

  /** Record `m + 1` of a run carries report `m`'s count against the sum of
      all expected sizes. */
  lemma RunTraceAt(files: seq<string>, sizes: seq<nat>, n: nat, failed: bool, m: nat)
    requires n <= |files| == |sizes|
    requires failed ==> n < |files|
    requires m < |RunReports(files, sizes, n, failed)|
    ensures |RunTrace(files, sizes, n, failed)| == |RunReports(files, sizes, n, failed)| + 1
    ensures RunTrace(files, sizes, n, failed)[m + 1].downloaded == RunReports(files, sizes, n, failed)[m].downloaded
    ensures RunTrace(files, sizes, n, failed)[m + 1].total == Sum(sizes)
  {
    var reports := RunReports(files, sizes, n, failed);
    FetchReportsAscend(files, sizes, n, failed);
    assert reports[m].downloaded <= Sum(sizes);
    assert RunTrace(files, sizes, n, failed)[m + 1] == RecordOf(reports[m], Sum(sizes));
  }

  /** In the records of a run, record `2j + 1` counts the bytes of files
      before `j`. */
  lemma RunTraceStarts(files: seq<string>, sizes: seq<nat>, n: nat, failed: bool)
    requires n <= |files| == |sizes|
    requires failed ==> n < |files|
    ensures var trace := RunTrace(files, sizes, n, failed);
      forall j | 0 <= j < |sizes| && 2 * j + 1 < |trace| :: trace[2 * j + 1].downloaded == PrefixSum(sizes, j)
  {
    var trace := RunTrace(files, sizes, n, failed);
    forall j | 0 <= j < |sizes| && 2 * j + 1 < |trace|
      ensures trace[2 * j + 1].downloaded == PrefixSum(sizes, j)
    {
      FetchReportsAt(files, sizes, n, failed, j);
      RunTraceAt(files, sizes, n, failed, 2 * j);
    }
  }

  /** In the records of a run, record `2j + 2` counts the bytes of files up
      to and including `j`. */
  lemma RunTraceCompletions(files: seq<string>, sizes: seq<nat>, n: nat, failed: bool)
    requires n <= |files| == |sizes|
    requires failed ==> n < |files|
    ensures var trace := RunTrace(files, sizes, n, failed);
      forall j | 0 <= j < |sizes| && 2 * j + 2 < |trace| :: trace[2 * j + 2].downloaded == PrefixSum(sizes, j + 1)
  {
    var trace := RunTrace(files, sizes, n, failed);
    forall j | 0 <= j < |sizes| && 2 * j + 2 < |trace|
      ensures trace[2 * j + 2].downloaded == PrefixSum(sizes, j + 1)
    {
      FetchReportsAt(files, sizes, n, failed, j);
      RunTraceAt(files, sizes, n, failed, 2 * j + 1);
    }
  }

  /** Every record of a run after the first is against the sum of all
      expected sizes. */
  lemma RunTraceTotals(files: seq<string>, sizes: seq<nat>, n: nat, failed: bool)
    requires n <= |files| == |sizes|
    requires failed ==> n < |files|
    ensures var trace := RunTrace(files, sizes, n, failed);
      forall m | 1 <= m < |trace| :: trace[m].total == Sum(sizes)
  {
    var trace := RunTrace(files, sizes, n, failed);
    forall m | 1 <= m < |trace|
      ensures trace[m].total == Sum(sizes)
    {
      RunTraceAt(files, sizes, n, failed, m - 1);
    }
  }

  /** Per-file mode: query all sizes, announce the start, then fetch. */
  method PerFileJob(files: seq<string>, hub: Hub, reporting: bool)
    returns (outcome: JobOutcome, trace: seq<Progress.ProgressRecord>, attempted: seq<string>)
    ensures PerFileOutcome(files, hub, outcome, attempted)
    ensures PerFileTrace(ExpectedSizes(files, hub), trace)
    ensures Orderly(trace)
    ensures !reporting ==> trace == []
    ensures reporting ==>
      && |trace| == 1 + 2 * |attempted| - (if outcome.Failed? then 1 else 0)
      && trace[0] == Progress.Record(0, 100, StartingLabel, 0.0, 0.0)
  {
    var sizes, total := QuerySizes(files, hub);
    var reports, count;
    outcome, reports, count := FetchAll(files, sizes, hub);
    attempted := files[..count];
    var failed := outcome.Failed?;
    var done := if failed then count - 1 else count;
    if failed {
      FirstFailureAt(files, hub, done);
    } else {
      NoFirstFailure(files, hub);
      assert attempted == files;
    }
    assert reports == RunReports(files, sizes, done, failed);
    if reporting {
      RunTraceOrderly(files, sizes, done, failed);
      RunTraceStarts(files, sizes, done, failed);
      RunTraceCompletions(files, sizes, done, failed);
      RunTraceTotals(files, sizes, done, failed);
      trace := RunTrace(files, sizes, done, failed);
    } else {
      trace := [];
    }
  }

  /** Snapshot mode: announce the start, fetch the repository, and on
      success write the completion record — whose percentage is still 99. */
  method SnapshotJob(config: Config, hub: Hub, reporting: bool)
    returns (outcome: JobOutcome, trace: seq<Progress.ProgressRecord>)
    ensures outcome == (match hub.snapshot
                        case Fetched(path) => RepoDownloaded(path, LocalDir(config))
                        case Raised(message) => Failed(message))
    ensures Orderly(trace)
    ensures !reporting ==> trace == []
    ensures reporting ==>
      && |trace| == (if hub.snapshot.Fetched? then 3 else 2)
      && trace[0] == Progress.Record(0, 100, StartingLabel, 0.0, 0.0)
      && trace[1] == Progress.Record(0, 100, RepoStartingLabel, 0.0, 0.0)
      && (hub.snapshot.Fetched? ==> trace[2].downloaded == 100 && trace[2].percent == 99)
  {
    var records := [Progress.Record(0, 100, StartingLabel, 0.0, 0.0),
                    Progress.Record(0, 100, RepoStartingLabel, 0.0, 0.0)];
    match hub.snapshot {
      case Fetched(path) =>
        outcome := RepoDownloaded(path, LocalDir(config));
        Progress.PercentOfCompleteIs99(100, 100);
        records := records + [Progress.Record(100, 100, CompleteLabel, 0.0, 0.0)];
      case Raised(message) =>
        outcome := Failed(message);
    }
    trace := if reporting then records else [];
  }

  /** The whole job. `trace` lists the progress records written, in order;
      `attempted` lists the files whose transfer was started. */
  method DownloadModel(config: Config, hub: Hub)
    returns (outcome: JobOutcome, trace: seq<Progress.ProgressRecord>, attempted: seq<string>)
    ensures outcome.Rejected? <==> !HasRepoId(config)
    ensures outcome.Rejected? ==> outcome.error == RepoIdRequired && trace == [] && attempted == []
    ensures !Progress.Reporting(config.progressFile) ==> trace == []
    ensures HasRepoId(config) && Progress.Reporting(config.progressFile) ==>
      |trace| > 0 && trace[0] == Progress.Record(0, 100, StartingLabel, 0.0, 0.0)
    ensures Orderly(trace)
    ensures HasRepoId(config) && PerFileMode(config.files) ==>
      && PerFileOutcome(config.files.names, hub, outcome, attempted)
      && PerFileTrace(ExpectedSizes(config.files.names, hub), trace)
      && (Progress.Reporting(config.progressFile) ==>
            |trace| == 1 + 2 * |attempted| - (if outcome.Failed? then 1 else 0))
    ensures HasRepoId(config) && !PerFileMode(config.files) ==>
      && attempted == []
      && outcome == (match hub.snapshot
                     case Fetched(path) => RepoDownloaded(path, LocalDir(config))
                     case Raised(message) => Failed(message))
      && (Progress.Reporting(config.progressFile) && hub.snapshot.Fetched? ==>
            |trace| == 3 && trace[2].downloaded == 100 && trace[2].percent == 99)
  {
    if !HasRepoId(config) {
      return Rejected(RepoIdRequired), [], [];
    }
    var reporting := Progress.Reporting(config.progressFile);
    if PerFileMode(config.files) {
      outcome, trace, attempted := PerFileJob(config.files.names, hub, reporting);
    } else {
      outcome, trace := SnapshotJob(config, hub, reporting);
      attempted := [];
    }
  }

  /** What the script leaves behind: the JSON object on standard output, if
      any, and the process exit status. */
  datatype ProcessResult = ProcessResult(stdout: Option<JobOutcome>, exitCode: nat)

  /** The script's entry point as written: it calls `download_model` and
      ignores the returned dictionary. Success and failure print their
      object; a rejected configuration prints nothing and still exits 0. */
  function ExitAsWritten(outcome: JobOutcome): (r: ProcessResult)
    ensures r.exitCode == (if outcome.Failed? then 1 else 0)
    ensures r.stdout.None? <==> outcome.Rejected?
    ensures !outcome.Rejected? ==> r.stdout == Some(outcome)
  {
    match outcome
    case Rejected(_) => ProcessResult(None, 0)
    case Failed(_) => ProcessResult(Some(outcome), 1)
    case FilesDownloaded(_, _) => ProcessResult(Some(outcome), 0)
    case RepoDownloaded(_, _) => ProcessResult(Some(outcome), 0)
  }

  /** The entry point as written and the one with the rejection reported
      differ exactly on rejected configurations. */
  lemma ExitDiffersOnlyOnRejection(outcome: JobOutcome)
    ensures ExitAsWritten(outcome) == ProcessExit(outcome) <==> !outcome.Rejected?
  {
  }

  /** A configuration without `repo_id` leaves no output and a success exit
      status, so a caller cannot tell it from a job that did nothing wrong. */
  lemma MissingRepoIdLooksSuccessful(path: string, localDir: string)
    ensures ExitAsWritten(Rejected(RepoIdRequired)) == ProcessResult(None, 0)
    ensures ExitAsWritten(Rejected(RepoIdRequired)).exitCode == ExitAsWritten(RepoDownloaded(path, localDir)).exitCode
    ensures ProcessExit(Rejected(RepoIdRequired)) == ProcessResult(Some(Rejected(RepoIdRequired)), 1)
  {
  }

  /** The entry point with the rejection reported: every outcome is printed,
      and the exit status is 0 exactly for the two successful outcomes. */
  function ProcessExit(outcome: JobOutcome): (r: ProcessResult)
    ensures r.stdout == Some(outcome)
    ensures r.exitCode == 0 <==> outcome.FilesDownloaded? || outcome.RepoDownloaded?
  {
    match outcome
    case Rejected(_) => ProcessResult(Some(outcome), 1)
    case Failed(_) => ProcessResult(Some(outcome), 1)
    case FilesDownloaded(_, _) => ProcessResult(Some(outcome), 0)
    case RepoDownloaded(_, _) => ProcessResult(Some(outcome), 0)
  }
}
