# dataset-manager download and caption kernels in Dafny

This project models the logic at the centre of two scripts of the dataset
manager and proves properties of it.

- `download_model.py` downloads a model from the Hugging Face hub for one JSON
  job configuration and writes progress records a UI reads. The model covers:
  - the progress record (`update_progress`);
  - the remote size query with its failure-as-zero rule;
  - `download_model`: repository-id validation, the choice between per-file and
    snapshot mode, the size pass, and the cumulative per-file loop that stops at
    the first failed transfer;
  - the process exit of the entry point;
  - one poll of `monitor_file_size_cumulative`, which is never started by the
    script but is part of it. A poll locates the partial file, picks the largest
    candidate, reports growth, and otherwise writes a heartbeat.
- `caption_service.py` is a Flask service around a vision language model. The
  model covers:
  - the `.env.caption` line parser and its effect on the environment;
  - the choice of `MODEL_PATH`;
  - the clean-up of the model's answer (strip, then cut at most one lead-in such
    as `Caption:`);
  - `generate_caption_internal`;
  - the replies of `/health` and `/caption`.

Modules:

| file | module | what it holds |
|---|---|---|
| wrappers.dfy | `Wrappers` | `Option`, `Result` |
| text.dfy | `Text` | Python's `strip`, `startswith`, `endswith`, `in`, ASCII `lower`, `split(c, 1)`, `os.path.basename`, `str(n)` |
| progress.dfy | `Progress` | the progress record and its percentage |
| download_job.dfy | `DownloadJob` | `get_remote_file_size`, `download_model`, the entry point's exit |
| monitor.dfy | `Monitor` | one poll of the cumulative monitor, and runs of polls |
| caption_text.dfy | `CaptionText` | caption clean-up, `.env.caption`, `MODEL_PATH` |
| caption_http.dfy | `CaptionHttp` | `generate_caption_internal`, `/caption`, `/health` |

Foreign code enters as data held by the model:
- The hub (`DownloadJob.Hub`) gives per-file size answers, per-file transfer
  results and a snapshot transfer result.
- A poll's view of the filesystem (`Monitor.Observation`) holds the size at a
  path, the file lists of the cache walk, and the parent directory's listing.
- The clock is the poll time `now`.
- The loaded language model (`CaptionHttp.Model`) maps a chat request to an
  answer or an exception message.
- The image decoder and the disk-existence test are fields of
  `CaptionHttp.Service`.

Exceptions that the source turns into replies or exit codes are values:
`Transfer.Raised`, `JobOutcome.Failed`, `Result.Err` and `Fault`.

Facts about the code that a reader might not expect:
- The completion write of snapshot mode (download_model.py:471) records 99
  percent, not 100, because `update_progress` caps the percentage at 99.
- `/caption` without a loaded model answers 500 with "Model not loaded"
  (caption_service.py:115-116, 210-215); only `/health` uses 503.
- The service has two endpoints, `/health` and `/caption`.
- `download_model` never starts a monitor thread, so the poll step runs only
  if some other caller starts it.

## Model

| member | source | states |
|---|---|---|
| Progress.Percent | download_model.py:34 | The percentage is never above 99, and it is 0 when the total is not positive |
| Progress.PercentIsFloor | download_model.py:34 | Below the cap the percentage is the floor of downloaded*100/total. The cap is reached only at 99 percent or more |
| Progress.PercentMonotone | download_model.py:34 | More bytes never lower the percentage for the same total |
| Progress.PercentOfCompleteIs99 | download_model.py:34 | A complete download (downloaded >= total > 0) reports 99, never 100 |
| Progress.Record | download_model.py:32-42 | The record keeps the byte count, label, speed and ETA. Its total is the given total when positive and the byte count otherwise; its percentage is that of the byte count against the given total, so at most 99. Its total is never below the count when the count is within the given total |
| Progress.RecordSelfConsistent | download_model.py:32-42 | A record's percentage matches its own byte count and total exactly when the given total was positive or nothing was downloaded: with an unknown total it claims n of n bytes at 0 percent |
| Progress.Update | download_model.py:28-42 | A record is produced exactly when a non-empty progress-file path is configured, and it is the record of the given arguments |
| DownloadJob.ExpectedSizes | download_model.py:397-402 | One expected size per listed file, in list order. Each is the hub's answer, or 0 when the query raised (`RemoteSize`, the model of `get_remote_file_size` at lines 338-345) |
| DownloadJob.QuerySizes | download_model.py:395-402 | The size pass visits every file, even after failed queries. Its total is the sum of the expected sizes |
| DownloadJob.PrefixSumLe | download_model.py:409-439 | The cumulative byte count never decreases from file to file, so it never exceeds the job total |
| DownloadJob.FirstFailure | download_model.py:426-443 | The first file whose transfer raises, with every earlier transfer succeeding; none when all succeed |
| DownloadJob.FirstFailureAt | download_model.py:441-443 | A raising file preceded only by successes is the first failure |
| DownloadJob.NoFirstFailure | download_model.py:426-443 | When every transfer succeeds there is no failure |
| DownloadJob.StageLabel | download_model.py:419-451 | A finished file's label is "Completed " and its name. A started file's label begins "Downloading ", its name and " (", and ends ")..." |
| DownloadJob.ReportsAt | download_model.py:412-451 | Report 2j starts file j with the expected bytes of files 0..j-1. Report 2j+1 completes it with those of files 0..j |
| DownloadJob.ReportsAscend | download_model.py:409-451 | The per-file reports never go down and never exceed the bytes of the files counted so far |
| DownloadJob.FetchAll | download_model.py:409-457 | Files are fetched in request order. On success every path is kept in order with count = number of files. On failure the error is that of the last file attempted, all earlier ones succeeded, later ones were not tried, and the reports stop after the failing file's start report |
| DownloadJob.OrderlyNeverGoesBack | download_model.py:409-451 | In an orderly record trace no later record counts fewer bytes than an earlier one |
| DownloadJob.RunTraceOrderly | download_model.py:409-451 | The records of a per-file run are orderly: each at most its total, percentage <= 99, byte counts non-decreasing |
| DownloadJob.RunTraceStarts | download_model.py:419-424 | Record 2j+1 of a run counts the expected bytes of the files before j |
| DownloadJob.RunTraceCompletions | download_model.py:439-451 | Record 2j+2 of a run counts the expected bytes of files 0..j |
| DownloadJob.RunTraceTotals | download_model.py:419-451 | Every record after the start record is against the sum of all expected sizes |
| DownloadJob.PerFileJob | download_model.py:391-457 | Per-file mode fetches everything in order, or fails at the first failing file with no later file attempted. Its records are the start record then two per completed file (one for the failing file), with prefix-sum counts, the job total, and an orderly trace |
| DownloadJob.SnapshotJob | download_model.py:460-479 | Snapshot mode reports the snapshot path and the local directory used, or the transfer's error. Its records are the two start records and, on success, a completion record at 100 bytes whose percentage is 99 |
| DownloadJob.DownloadModel | download_model.py:347-490 | A missing or empty repo_id is rejected with "repo_id is required", before any record or transfer. A non-empty list selects per-file mode and anything else snapshot mode. No record is written without a progress file, and every trace is orderly |
| DownloadJob.ExitAsWritten | download_model.py:492-508 | As written, exit status 1 for a failed job and 0 for every other outcome. Every outcome but a rejection is printed; a rejected configuration prints nothing |
| DownloadJob.ExitDiffersOnlyOnRejection | download_model.py:484-508 | The entry point as written and the corrected one agree on every outcome except a rejected configuration |
| DownloadJob.MissingRepoIdLooksSuccessful | download_model.py:500-502 | As written, a rejected configuration prints nothing and exits with the same status as a successful download. Corrected, it prints the rejection and exits 1 |
| DownloadJob.ProcessExit | download_model.py:484-490 | Corrected entry point: every outcome is printed, and the exit status is 0 exactly for the two successful outcomes |
| Monitor.ParentPrefixRedundant | download_model.py:147 | In the parent-directory test, "starts with the base name" adds nothing to "contains the base name" |
| Monitor.Pick | download_model.py:113-147 | The pick is a candidate (`Candidate`: the cache test of lines 114-115 or the parent test of line 147) of positive size. No candidate is larger, and every earlier candidate is strictly smaller (the first of the largest wins) |
| Monitor.ScanCache | download_model.py:107-136 | The cache scan stops at the first walked directory holding a positive-size candidate, and picks within it |
| Monitor.Locate | download_model.py:81-160 | The target path wins when it has a positive size. Otherwise a non-empty remembered path of positive size gives that size. Otherwise the cache scan's hit gives its entry's size and path; failing that, the parent directory's pick gives its entry's; failing that, size 0 with the remembered path. A positive size always comes with a path |
| Monitor.LocateFindsIff | download_model.py:81-160 | A poll finds a positive size exactly when the target, a non-empty remembered path, some cache directory or the parent directory holds a positive-size candidate |
| Monitor.Poll | download_model.py:162-192 | A poll reports only when the located size exceeds the last size, and then reports bytes_before + size and raises last_size to it. Otherwise last_size stays. Without a file and more than 2 s after the last write it writes a heartbeat, and only then |
| Monitor.Written | download_model.py:172-191 | A monitor call writes a record exactly when a progress file is configured, with its byte count, label, speed and ETA, the job total (or the byte count when the total is 0) and the percentage against the job total |
| Monitor.PollCallBounds | download_model.py:163-192 | A poll's report is at most bytes_before + the new last size. As written, a report is either exactly bytes_before or above bytes_before + the old last size |
| Monitor.Run | download_model.py:77-199 | Over successive polls last_size never decreases |
| Monitor.RunBounds | download_model.py:163-192 | Every report of a run is within bytes_before + the final last size. Corrected, none is below bytes_before + the starting last size |
| Monitor.RunNeverGoesBack | download_model.py:182-192 | With the heartbeat corrected, no report of a run counts fewer bytes than an earlier one |
| Monitor.GrowthReportsIncrease | download_model.py:167-181 | As written, the growth reports of a run (those above bytes_before) strictly increase |
| Monitor.ExampleRun | download_model.py:163-192 | A file seen at 5 bytes, then gone for 3 s, gives the reports 5 then 0 as written, and 5 then 5 corrected |
| Monitor.HeartbeatRegresses | download_model.py:184-191 | As written, a heartbeat after growth reports fewer bytes than the growth report before it |
| Text.Strip | caption_service.py:147 | The stripped text has no outer whitespace and is the slice of the input after its leading whitespace |
| Text.StripRemovesSpace | caption_service.py:147 | Everything strip removes, from either end, is whitespace |
| Text.StripIdempotent | caption_service.py:158 | Stripping twice is stripping once |
| Text.SplitFirst | caption_service.py:27 | split('=', 1) gives a key holding no '=' and a value such that key + "=" + value is the line |
| Text.SplitFirstJoin | caption_service.py:27 | Splitting key + "=" + value, with no '=' in the key, gives back the key and the value |
| Text.Basename | download_model.py:99 | The base name holds no '/', ends the path, and is preceded by a '/' when shorter than the path |
| CaptionText.FirstPrefix | caption_service.py:155-159 | The index of the first listed lead-in the text starts with, no earlier lead-in matching. None exactly when no lead-in matches |
| CaptionText.CleanCaption | caption_service.py:147-161 | The caption has no outer whitespace and is a piece of the model's answer. Without a lead-in it is the stripped answer. With lead-in p, the stripped answer starts with p up to ASCII case, and the caption is the whitespace-trimmed rest after p (`Text.TrimmedPiece`), strictly shorter than the stripped answer |
| Text.TrimmedPieceUnique | caption_service.py:158 | The whitespace-trimmed rest of a text after a given offset is unique, so CleanCaption's lead-in case fixes the caption |
| CaptionText.StrippedTailInside | caption_service.py:158 | The stripped rest after a cut lead-in is still a piece of the original answer |
| CaptionText.OnlyOnePrefixRemoved | caption_service.py:156-159 | Only one lead-in is cut: "Caption: Description: " + text cleans to "Description: " + text |
| CaptionText.CleanCaptionKeepsPlainAnswer | caption_service.py:155-161 | An answer without outer whitespace and without a lead-in is returned unchanged |
| CaptionText.CleanCaptionStable | caption_service.py:147-161 | Cleaning a caption again changes nothing unless the caption itself starts with a lead-in |
| CaptionText.ParseEnvLine | caption_service.py:25-28 | A line gives an entry exactly when, stripped, it is non-empty, not a '#' comment and holds '='. The entry is then the stripped part before the first '=' and the stripped part after it; the key holds no '=' |
| CaptionText.ParseEnvLineRoundTrip | caption_service.py:26-28 | key=value with a clean key (not starting with '#', no '=') and a clean value parses back to that key and value |
| CaptionText.ApplyEntriesFails | caption_service.py:28 | Setting the entries fails exactly when some entry is one the environment refuses |
| CaptionText.LaterEntryWins | caption_service.py:24-28 | After setting the entries, each key holds the value of the last entry for it. Keys no entry sets keep their environment value |
| CaptionText.LoadEnvFails | caption_service.py:23-28 | Loading the file fails exactly when some line parses to an entry the environment refuses |
| CaptionText.LaterLineWins | caption_service.py:23-28 | After loading, a later line for a key overrides an earlier one. A key no line sets keeps its value |
| CaptionText.ModelPath | caption_service.py:42-48 | The model path is never empty. A set, non-empty DEV_MODEL_PATH is the path. It is the production path exactly when DEV_MODEL_PATH is unset or empty (or names that path) |
| CaptionText.EmptyDevPathReportsDevMode | caption_service.py:42-48 | An empty DEV_MODEL_PATH selects the production path and still counts as development mode |
| CaptionText.EnvFileSelectsDevModel | caption_service.py:20-44 | A last `.env.caption` line DEV_MODEL_PATH=p selects p as the model path, in development mode |
| CaptionHttp.PromptOrDefault | caption_service.py:118 | The prompt sent is always truthy: the request's prompt when truthy, the default prompt otherwise |
| CaptionHttp.GenerateCaption | caption_service.py:113-165 | Without a model, "Model not loaded". Otherwise it succeeds exactly when the model answers, passes the model's error on, and a caption is the cleaned answer, a clean piece of it |
| CaptionHttp.ImageIn | caption_service.py:190 | `'image' in data` raises exactly for null, booleans and numbers. On an object it is key membership |
| CaptionHttp.Caption | caption_service.py:184-215 | Replies are 200, 400 or 500. 400 exactly when the `in` test finds no image. A body that cannot be read, an image that does not decode, or an `in` test passed by a non-object is 500 with that error. An object with a decodable image gets 200 with the caption generated from its prompt (default null) and temperature (default 0.7), or 500 with the generation error. 200 needs a loaded model |
| CaptionHttp.Health | caption_service.py:168-181 | 200 with "ok" exactly when a model is loaded, else 503 with "model_not_loaded". Reports the path the service loads from (`ModelPath`) with its existence on disk, dev mode as "DEV_MODEL_PATH is set", and the GPU layers |
| CaptionHttp.HealthDevModeOnProductionPath | caption_service.py:168-181 | /health claims dev mode while naming the production path exactly when DEV_MODEL_PATH (read at lines 42-48) is empty or is the production path |
| CaptionHttp.CaptionWithDefaults | caption_service.py:198-208 | A request without a truthy prompt and without a temperature asks the model with the default prompt at 0.7, and replies with the cleaned answer or the error |
| CaptionHttp.NoModelReply | caption_service.py:115-116 | Without a model, a request that reaches generation gets 500 "Model not loaded" |
| CaptionHttp.DecodeErrorFirst | caption_service.py:193-196 | The image is decoded before the model is checked: a decoding error is reported as such, loaded model or not |
| CaptionHttp.ImageMentionIsNotAnImage | caption_service.py:190-194 | A JSON string mentioning "image", or an array holding it, passes the `in` test and then fails with 500, not 400 |
| CaptionHttp.HealthWithEmptyDevPath | caption_service.py:176 | With DEV_MODEL_PATH empty, /health claims dev mode while naming the production path |

## Left out

- Writing the progress file: the temp-then-rename write, `makedirs` of its directory, and the log lines are left out. The model produces the record that would be written; write failures are swallowed in the source and change nothing here.
- Progress.Percent: uses exact integer floor of downloaded*100/total where the source divides in floating point first. The two agree unless rounding carries a value across an integer.
- Speed and ETA are carried as reals with no rounding model. The source computes them in floating point.
- The polling loop, `time.sleep`, `STOP_MONITORING` and threads are left out. `Monitor.Run` strings polls together, but nothing in `download_model` starts a monitor.
- Monitor.Poll: reads the clock once per poll. The source calls `time.time()` separately for the check and for the new last-update time.
- `os.walk` depth pruning, `HF_HOME` lookup and `getsize` are folded into the observation. `cacheGroups` are the lists the pruned walk yields, and an empty `HF_HOME` is no groups. An unreadable size of a remembered path, a cache entry or a parent-directory entry is swallowed by the source and appears here as size 0 or a missing path.
- Monitor.Locate: a `getsize` failure on the target path (download_model.py:82-83) is not modelled. That call is outside any `try`, so such a failure raises out of the monitor and ends it.
- `monitor_file_size` (download_model.py:201-336) is left out. Its poll is close to the cumulative one with bytes_before 0 and its own total, but its growth label is the file name alone (line 318) and its heartbeat reports 0 (line 328).
- DownloadJob.ExpectedSizes: a size answer of `None` is not modelled. `get_remote_file_size` returns `meta.size` unchecked (download_model.py:342-343); a `None` makes `total_download_size += size` (line 402) raise `TypeError` inside the job's `try`, so the job fails. `SizeQuery` has only a size or a failed query.
- DownloadJob.Hub: the hub answers size queries and transfers by file name, so a file listed twice gets the same answer both times. Hub state that changes between calls is not modelled.
- Command-line handling in the entry point is left out: the usage message, `json.loads` of the argument, and exceptions raised outside the job's `try` (such as `makedirs` of the local directory).
- Configuration values of the wrong JSON type are left out: a non-string `repo_id`, a `null` `local_dir`, or a list holding non-strings. `FilesField.NotAList` stands for every non-list `files` value.
- Hugging Face, llama_cpp, PIL, base64 and Flask are represented by the values they return: `Hub`, `Model`, `Service.decode` and the request's parsed body.
- Python's exception texts are left out. A `TypeError` from a wrongly shaped request is `Fault.TypeError`, and other exceptions carry the message given by the collaborator.
- Module start-up of the caption service is left out. As written, lines 22 and 30 use `logger` before it is defined at line 34, so importing the module raises `NameError`. The parser is modelled as evidently intended.
- Setting an environment variable follows POSIX `putenv`: an empty key or a NUL character raises. Windows rules are left out.
- `N_GPU_LAYERS` and `N_CTX` are not parsed: `gpuLayers` is given, and a non-integer value, which would stop start-up, is left out.
- `load_model` and the file-existence check at start-up are left out. Only whether a model is loaded is modelled.
- Unicode case folding is left out: `lower()` is modelled for ASCII letters only.
- `test_caption_service.py` is an HTTP client script with no logic of the service in it.

## Findings

| source | as written | input that shows it | evidently intended | confidence | as-written member | corrected member |
|---|---|---|---|---|---|---|
| download_model.py:500-502 | the entry point ignores `download_model`'s returned dictionary, so a rejected configuration prints nothing and exits 0 | `{"files": []}` (no `repo_id`) | the rejection is printed and the process exits non-zero, as every other failure does | not executed | DownloadJob.MissingRepoIdLooksSuccessful | DownloadJob.ProcessExit |
| download_model.py:184-191 | after the file has been seen to grow, a poll that no longer finds it writes a heartbeat with `bytes_before`, so the reported count goes back down | one-file job; the target seen at 5 bytes, then absent for more than 2 s: reports 5, then 0 | the heartbeat repeats the last count reported for the file (`bytes_before + last_size`) | not executed | Monitor.HeartbeatRegresses | Monitor.RunNeverGoesBack |
