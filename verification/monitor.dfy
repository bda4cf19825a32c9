/** One poll of `monitor_file_size_cumulative`: find the file being
    written, and report cumulative progress when it has grown, or a
    heartbeat when nothing is found. The filesystem is given as an
    observation — the sizes of paths that exist, the file lists a walk of
    the Hugging Face cache yields, and the listing of the target's parent
    directory — and the clock as the time of the poll. */
module Monitor {
  import opened Wrappers
  import Text
  import Progress

  /** A file seen in a directory listing: its full path, its name and its
      size. A file whose size cannot be read is listed with size 0, which
      the scan never prefers over anything. */
  datatype FileEntry = FileEntry(path: string, name: string, size: nat)

  /** What one poll can see. `sizeAt(p)` is the size of `p`, `None` when it
      does not exist; `cacheGroups` are the file lists of every directory a
      walk of the cache's `hub` and then `downloads` directories visits, in
      walk order; `parentListing` lists the target's parent directory, `None`
      when it does not exist or cannot be listed. */
  datatype Observation = Observation(
    sizeAt: string -> Option<nat>,
    cacheGroups: seq<seq<FileEntry>>,
    parentListing: Option<seq<FileEntry>>)

  /** The monitor's arguments: the target path, where to write progress,
      the file's display name, the bytes of the files before it, the job
      total, and the file's position in the job. */
  datatype MonitorJob = MonitorJob(
    target: string,
    progressFile: Option<string>,
    filename: string,
    bytesBefore: nat,
    totalSize: nat,
    fileNum: nat,
    totalFiles: nat)

  /** What the monitor remembers between polls: the last size it reported,
      the last path it found the file at, and when it last wrote. */
  datatype MonitorState = MonitorState(lastSize: nat, found: Option<string>, lastUpdate: real)

  /** The arguments of one `update_progress` call from the monitor. */
  datatype Call = Call(downloaded: nat, text: string, speed: real, eta: real)

  datatype StepResult = StepResult(state: MonitorState, call: Option<Call>)

  /** Where a listed file was seen. */
  datatype Place = Cache | Parent

  /** The name tests of the two scans. In the cache, a file is a candidate
      when its name equals or contains the target's base name, ends with
      `.incomplete`, or contains `.tmp`. In the parent directory, it must
      start with or contain the base name and also contain `.partial`,
      `.lock` or `.tmp`. */
  predicate Candidate(place: Place, base: string, name: string)
  {
    match place
    case Cache =>
      || base == name || Text.Contains(name, base)
      || Text.EndsWith(name, ".incomplete") || Text.Contains(name, ".tmp")
    case Parent =>
      && (Text.StartsWith(name, base) || Text.Contains(name, base))
      && (Text.Contains(name, ".partial") || Text.Contains(name, ".lock") || Text.Contains(name, ".tmp"))
  }

  /** In the parent-directory test, "starts with the base name" adds
      nothing to "contains the base name". */
  lemma ParentPrefixRedundant(base: string, name: string)
    ensures Candidate(Parent, base, name) <==>
      Text.Contains(name, base)
      && (Text.Contains(name, ".partial") || Text.Contains(name, ".lock") || Text.Contains(name, ".tmp"))
  {
    if Text.StartsWith(name, base) {
      assert name[0..|base|] == base;
      Text.ContainsAt(name, base, 0);
    }
  }

  /** The size of the chosen entry, 0 when none is chosen. */
  function Chosen(entries: seq<FileEntry>, pick: Option<nat>): nat
  {
    if pick.Some? && pick.value < |entries| then entries[pick.value].size else 0
  }

  /** The scan of one listing: walking the entries in order, a candidate
      replaces the current choice only when it is strictly larger, starting
      from nothing at size 0. The result is the first of the largest
      candidates, if any candidate has a positive size. */
  function Pick(entries: seq<FileEntry>, place: Place, base: string): (r: Option<nat>)
    ensures r.Some? ==> r.value < |entries| && Candidate(place, base, entries[r.value].name) && entries[r.value].size > 0
    ensures forall j | 0 <= j < |entries| && Candidate(place, base, entries[j].name) ::
      entries[j].size <= Chosen(entries, r)
    ensures r.Some? ==> forall j | 0 <= j < r.value && Candidate(place, base, entries[j].name) ::
      entries[j].size < entries[r.value].size
  {
    if |entries| == 0 then None
    else
      var prev := Pick(entries[..|entries| - 1], place, base);
      var last := entries[|entries| - 1];
      if Candidate(place, base, last.name) && last.size > Chosen(entries[..|entries| - 1], prev)
      then Some(|entries| - 1)
      else prev
  }

  /** Where the cache scan found its file: a directory of the walk and an
      entry of its list. */
  datatype Hit = Hit(group: nat, index: nat)

  /** The cache scan: directories are visited in walk order and the scan
      stops after the first one holding a candidate of positive size. */
  function ScanCache(groups: seq<seq<FileEntry>>, base: string): (r: Option<Hit>)
    ensures r.Some? ==>
      && r.value.group < |groups|
      && Pick(groups[r.value.group], Cache, base) == Some(r.value.index)
      && forall g | 0 <= g < r.value.group :: Pick(groups[g], Cache, base).None?
    ensures r.None? ==> forall g | 0 <= g < |groups| :: Pick(groups[g], Cache, base).None?
  {
    if |groups| == 0 then None
    else match Pick(groups[0], Cache, base)
      case Some(i) => Some(Hit(0, i))
      case None =>
        match ScanCache(groups[1..], base)
        case None => None
        case Some(h) => Some(Hit(h.group + 1, h.index))
  }

  /** What a poll locates: the observed size (0 when nothing is found) and
      the path the monitor will remember. */
  datatype Located = Located(size: nat, found: Option<string>)

  function SizeOrZero(s: Option<nat>): nat
  {
    s.GetOr(0)
  }

  /** The path remembered from the previous poll, updated to the target
      when the target exists. */
  function Remembered(job: MonitorJob, found: Option<string>, obs: Observation): Option<string>
  {
    if obs.sizeAt(job.target).Some? then Some(job.target) else found
  }

  /** Neither the target nor a non-empty remembered path that exists has a
      positive size: the poll goes on to the scans. */
  predicate NothingDirect(job: MonitorJob, found: Option<string>, obs: Observation)
  {
    var mem := Remembered(job, found, obs);
    && SizeOrZero(obs.sizeAt(job.target)) == 0
    && (mem.None? || mem.value == "" || SizeOrZero(obs.sizeAt(mem.value)) == 0)
  }

  /** The search of one poll. The target path is consulted first; if it
      yields nothing, the previously found path; then the cache scan; then
      the parent directory. Each later place is consulted only while the
      size found so far is 0. */
  function Locate(job: MonitorJob, found: Option<string>, obs: Observation): (r: Located)
    ensures SizeOrZero(obs.sizeAt(job.target)) > 0 ==>
      r == Located(SizeOrZero(obs.sizeAt(job.target)), Some(job.target))
    ensures var mem := Remembered(job, found, obs);
      SizeOrZero(obs.sizeAt(job.target)) == 0 && mem.Some? && mem.value != "" &&
      SizeOrZero(obs.sizeAt(mem.value)) > 0 ==>
        r == Located(SizeOrZero(obs.sizeAt(mem.value)), mem)
    ensures NothingDirect(job, found, obs) ==>
      var base := Text.Basename(job.target);
      var hit := ScanCache(obs.cacheGroups, base);
      var pick := if obs.parentListing.Some? then Pick(obs.parentListing.value, Parent, base) else None;
      if hit.Some? then
        var e := obs.cacheGroups[hit.value.group][hit.value.index];
        r == Located(e.size, Some(e.path))
      else if pick.Some? then
        var e := obs.parentListing.value[pick.value];
        r == Located(e.size, Some(e.path))
      else
        r == Located(0, Remembered(job, found, obs))
    ensures r.size > 0 ==> r.found.Some?
    ensures r.size == 0 ==>
      && ScanCache(obs.cacheGroups, Text.Basename(job.target)).None?
      && (obs.parentListing.None? || Pick(obs.parentListing.value, Parent, Text.Basename(job.target)).None?)
  {
    var base := Text.Basename(job.target);
    // the target path
    var atTarget := obs.sizeAt(job.target);
    var size := SizeOrZero(atTarget);
    var remembered := Remembered(job, found, obs);
    // the path found by an earlier poll
    var size :=
      if size == 0 && remembered.Some? && remembered.value != "" && obs.sizeAt(remembered.value).Some?
      then obs.sizeAt(remembered.value).value
      else size;
    if size > 0 then Located(size, remembered)
    else
      // the cache, then the parent directory
      match ScanCache(obs.cacheGroups, base)
      case Some(h) =>
        var e := obs.cacheGroups[h.group][h.index];
        Located(e.size, Some(e.path))
      case None =>
        match obs.parentListing
        case None => Located(0, remembered)
        case Some(listing) =>
          match Pick(listing, Parent, base)
          case None => Located(0, remembered)
          case Some(i) => Located(listing[i].size, Some(listing[i].path))
  }

  /** A poll finds a file of positive size exactly when one of the four
      places has one: the target, a non-empty remembered path, a directory
      of the cache walk, or the parent directory. */
  lemma LocateFindsIff(job: MonitorJob, found: Option<string>, obs: Observation)
    ensures var base := Text.Basename(job.target);
      var mem := Remembered(job, found, obs);
      Locate(job, found, obs).size > 0 <==>
        || SizeOrZero(obs.sizeAt(job.target)) > 0
        || (mem.Some? && mem.value != "" && SizeOrZero(obs.sizeAt(mem.value)) > 0)
        || (exists g, i | 0 <= g < |obs.cacheGroups| && 0 <= i < |obs.cacheGroups[g]| ::
              Candidate(Cache, base, obs.cacheGroups[g][i].name) && obs.cacheGroups[g][i].size > 0)
        || (obs.parentListing.Some? &&
            exists i | 0 <= i < |obs.parentListing.value| ::
              Candidate(Parent, base, obs.parentListing.value[i].name) && obs.parentListing.value[i].size > 0)
  {
    var base := Text.Basename(job.target);
    var hit := ScanCache(obs.cacheGroups, base);
    if hit.Some? {
      var g, i := hit.value.group, hit.value.index;
      assert Candidate(Cache, base, obs.cacheGroups[g][i].name) && obs.cacheGroups[g][i].size > 0;
    }
    if obs.parentListing.Some? {
      var pick := Pick(obs.parentListing.value, Parent, base);
      if pick.Some? {
        assert Candidate(Parent, base, obs.parentListing.value[pick.value].name);
      }
    }
  }

  function GrowthLabel(job: MonitorJob): string
  {
    job.filename + " (" + Text.NatToString(job.fileNum) + "/" + Text.NatToString(job.totalFiles) + ")"
  }

  function InitializingLabel(job: MonitorJob): string
  {
    "Initializing " + job.filename + "..."
  }

  /** The seconds without a write after which a poll that finds nothing
      writes a heartbeat. */
  const HeartbeatInterval: real := 2.0

  /** One poll at time `now`, with the heartbeat reporting `heartbeatBytes`.
      When the file is found and has grown past the last reported size, the
      poll reports the bytes before it plus its size, with the speed since
      the last write and the ETA that speed gives; when nothing is found and
      the last write is more than the interval ago, it writes a heartbeat. */
  function Poll(job: MonitorJob, s: MonitorState, obs: Observation, now: real, heartbeatBytes: nat): (r: StepResult)
    ensures var size := Locate(job, s.found, obs).size;
      && r.state.found == Locate(job, s.found, obs).found
      && (size > s.lastSize <==> r.state.lastSize > s.lastSize)
      && r.state.lastSize >= s.lastSize
      && (size > s.lastSize ==>
            && r.state.lastSize == size
            && r.call.Some? && r.call.value.downloaded == job.bytesBefore + size)
      && (size <= s.lastSize ==> r.state.lastSize == s.lastSize)
      && (r.call.Some? && size <= s.lastSize ==>
            size == 0 && now - s.lastUpdate > HeartbeatInterval && r.call.value.downloaded == heartbeatBytes)
      && (size == 0 && now - s.lastUpdate > HeartbeatInterval ==> r.call.Some?)
      && (r.call.Some? ==> r.state.lastUpdate == now)
      && (r.call.None? ==> r.state.lastUpdate == s.lastUpdate)
  {
    var loc := Locate(job, s.found, obs);
    if loc.size > 0 then
      if loc.size > s.lastSize then
        var cumulative := job.bytesBefore + loc.size;
        var elapsed := now - s.lastUpdate;
        var speed := if elapsed > 0.0 then (loc.size - s.lastSize) as real / elapsed else 0.0;
        var eta := if speed > 0.0 then (job.totalSize as real - cumulative as real) / speed else 0.0;
        StepResult(MonitorState(loc.size, loc.found, now), Some(Call(cumulative, GrowthLabel(job), speed, eta)))
      else
        StepResult(MonitorState(s.lastSize, loc.found, s.lastUpdate), None)
    else if now - s.lastUpdate > HeartbeatInterval then
      StepResult(MonitorState(s.lastSize, loc.found, now), Some(Call(heartbeatBytes, InitializingLabel(job), 0.0, 0.0)))
    else
      StepResult(MonitorState(s.lastSize, loc.found, s.lastUpdate), None)
  }

  /** The record a monitor call writes, if a progress file is configured. */
  function Written(job: MonitorJob, c: Call): (r: Option<Progress.ProgressRecord>)
    ensures r.Some? <==> Progress.Reporting(job.progressFile)
    ensures r.Some? ==> r.value.downloaded == c.downloaded && r.value.currentFile == c.text
    ensures r.Some? ==> r.value.total == (if job.totalSize > 0 then job.totalSize else c.downloaded)
    ensures r.Some? ==> r.value.percent == Progress.Percent(c.downloaded, job.totalSize)
    ensures r.Some? ==> r.value.speed == c.speed && r.value.eta == c.eta
  {
    Progress.Update(job.progressFile, c.downloaded, job.totalSize, c.text, c.speed, c.eta)
  }

  /** What the heartbeat reports. As written it is the bytes before this
      file only, even after the file has been seen to grow; corrected, it is
      what was last reported for the file, which is the bytes before it
      until the file is first seen. */
  function HeartbeatBytes(job: MonitorJob, s: MonitorState, corrected: bool): nat
  {
    if corrected then job.bytesBefore + s.lastSize else job.bytesBefore
  }

  /** The call a poll makes reports no more than the bytes before the file
      plus the new last size. Corrected, it reports at least the bytes
      before plus the old last size; as written, a call that is not a
      growth report reports exactly the bytes before. */
  lemma PollCallBounds(job: MonitorJob, s: MonitorState, obs: Observation, now: real, corrected: bool)
    ensures var st := Poll(job, s, obs, now, HeartbeatBytes(job, s, corrected));
      && st.state.lastSize >= s.lastSize
      && (st.call.Some? ==> st.call.value.downloaded <= job.bytesBefore + st.state.lastSize)
      && (st.call.Some? && corrected ==> st.call.value.downloaded >= job.bytesBefore + s.lastSize)
      && (st.call.Some? && !corrected ==>
            st.call.value.downloaded == job.bytesBefore || st.call.value.downloaded > job.bytesBefore + s.lastSize)
  {
  }

  /** One poll of a run: what it sees and when. */
  datatype Sample = Sample(obs: Observation, now: real)

  datatype RunResult = RunResult(state: MonitorState, calls: seq<Call>)

  function CallList(c: Option<Call>): seq<Call>
  {
    if c.Some? then [c.value] else []
  }

  /** Successive polls from state `s`, with the as-written or the corrected
      heartbeat; the calls they make, in order. */
  function Run(job: MonitorJob, s: MonitorState, samples: seq<Sample>, corrected: bool): (r: RunResult)
    ensures r.state.lastSize >= s.lastSize
    decreases |samples|
  {
    if |samples| == 0 then RunResult(s, [])
    else
      var step := Poll(job, s, samples[0].obs, samples[0].now, HeartbeatBytes(job, s, corrected));
      var rest := Run(job, step.state, samples[1..], corrected);
      RunResult(rest.state, CallList(step.call) + rest.calls)
  }

  /** The first poll of a run and the run of the remaining polls. */
  lemma RunUnfold(job: MonitorJob, s: MonitorState, samples: seq<Sample>, corrected: bool)
    requires |samples| > 0
    ensures var step := Poll(job, s, samples[0].obs, samples[0].now, HeartbeatBytes(job, s, corrected));
      var rest := Run(job, step.state, samples[1..], corrected);
      && Run(job, s, samples, corrected).state == rest.state
      && Run(job, s, samples, corrected).calls == CallList(step.call) + rest.calls
  {
  }

  /** The bounds a run keeps: every call reports no more than the bytes
      before the file plus the final last size; corrected, no less than the
      bytes before plus the starting last size; as written, either exactly
      the bytes before or more than the bytes before plus the starting last
      size. */
  ghost predicate Bounded(job: MonitorJob, s: MonitorState, r: RunResult, corrected: bool)
  {
    forall i | 0 <= i < |r.calls| ::
      && r.calls[i].downloaded <= job.bytesBefore + r.state.lastSize
      && (corrected ==> r.calls[i].downloaded >= job.bytesBefore + s.lastSize)
      && (!corrected ==> r.calls[i].downloaded == job.bytesBefore || r.calls[i].downloaded > job.bytesBefore + s.lastSize)
  }

  /** Every run keeps its bounds. */
  lemma {:induction false} RunBounds(job: MonitorJob, s: MonitorState, samples: seq<Sample>, corrected: bool)
    ensures Bounded(job, s, Run(job, s, samples, corrected), corrected)
    decreases |samples|
  {
    if |samples| > 0 {
      var step := Poll(job, s, samples[0].obs, samples[0].now, HeartbeatBytes(job, s, corrected));
      PollCallBounds(job, s, samples[0].obs, samples[0].now, corrected);
      RunUnfold(job, s, samples, corrected);
      var rest := Run(job, step.state, samples[1..], corrected);
      RunBounds(job, step.state, samples[1..], corrected);
      BoundedConcat(job, s, step, rest, corrected);
    }
  }

  /** A poll within its bounds followed by a run within its own keeps the
      bounds of the whole. */
  lemma BoundedConcat(job: MonitorJob, s: MonitorState, step: StepResult, rest: RunResult, corrected: bool)
    requires step.state.lastSize >= s.lastSize && rest.state.lastSize >= step.state.lastSize
    requires step.call.Some? ==> step.call.value.downloaded <= job.bytesBefore + step.state.lastSize
    requires step.call.Some? && corrected ==> step.call.value.downloaded >= job.bytesBefore + s.lastSize
    requires step.call.Some? && !corrected ==>
      step.call.value.downloaded == job.bytesBefore || step.call.value.downloaded > job.bytesBefore + s.lastSize
    requires Bounded(job, step.state, rest, corrected)
    ensures Bounded(job, s, RunResult(rest.state, CallList(step.call) + rest.calls), corrected)
  {
    var calls := CallList(step.call) + rest.calls;
    var k := |CallList(step.call)|;
    forall i | k <= i < |calls|
      ensures calls[i] == rest.calls[i - k]
    {
    }
  }

  /** With the corrected heartbeat a run never reports fewer bytes than an
      earlier call of the same run. */
  lemma {:induction false} RunNeverGoesBack(job: MonitorJob, s: MonitorState, samples: seq<Sample>, i: nat, j: nat)
    requires i <= j < |Run(job, s, samples, true).calls|
    ensures Run(job, s, samples, true).calls[i].downloaded <= Run(job, s, samples, true).calls[j].downloaded
    decreases |samples|
  {
    var step := Poll(job, s, samples[0].obs, samples[0].now, HeartbeatBytes(job, s, true));
    var rest := Run(job, step.state, samples[1..], true);
    RunUnfold(job, s, samples, true);
    var calls := Run(job, s, samples, true).calls;
    var k := |CallList(step.call)|;
    if i >= k {
      assert calls[i] == rest.calls[i - k] && calls[j] == rest.calls[j - k];
      RunNeverGoesBack(job, step.state, samples[1..], i - k, j - k);
    } else if i < j {
      PollCallBounds(job, s, samples[0].obs, samples[0].now, true);
      RunBounds(job, step.state, samples[1..], true);
      assert calls[i] == step.call.value && calls[j] == rest.calls[j - k];
    }
  }

  /** As written, the growth reports of a run strictly increase: a later
      report above the bytes before the file is above every earlier one. */
  lemma {:induction false} GrowthReportsIncrease(job: MonitorJob, s: MonitorState, samples: seq<Sample>, i: nat, j: nat)
    requires i < j < |Run(job, s, samples, false).calls|
    requires Run(job, s, samples, false).calls[i].downloaded > job.bytesBefore
    requires Run(job, s, samples, false).calls[j].downloaded > job.bytesBefore
    ensures Run(job, s, samples, false).calls[i].downloaded < Run(job, s, samples, false).calls[j].downloaded
    decreases |samples|
  {
    var step := Poll(job, s, samples[0].obs, samples[0].now, HeartbeatBytes(job, s, false));
    var rest := Run(job, step.state, samples[1..], false);
    RunUnfold(job, s, samples, false);
    var calls := Run(job, s, samples, false).calls;
    var k := |CallList(step.call)|;
    assert calls[j] == rest.calls[j - k];
    if i >= k {
      assert calls[i] == rest.calls[i - k];
      GrowthReportsIncrease(job, step.state, samples[1..], i - k, j - k);
    } else {
      PollCallBounds(job, s, samples[0].obs, samples[0].now, false);
      RunBounds(job, step.state, samples[1..], false);
      assert calls[i] == step.call.value;
    }
  }

  /** A job for the example below: the single file of a one-file job. */
  const ExampleJob: MonitorJob := MonitorJob("/m/model.gguf", Some("/p.json"), "model.gguf", 0, 10, 1, 1)

  /** The target exists with 5 bytes; afterwards nothing can be found. */
  const Seen: Observation := Observation(p => if p == "/m/model.gguf" then Some(5) else None, [], None)
  const Gone: Observation := Observation(p => None, [], None)

  /** The two-poll run of the example: the first poll sees the target at
      5 bytes and reports it; the second, three seconds later, finds nothing
      and writes a heartbeat. */
  lemma ExampleRun(corrected: bool)
    ensures var r := Run(ExampleJob, MonitorState(0, None, 0.0), [Sample(Seen, 1.0), Sample(Gone, 4.0)], corrected);
      && |r.calls| == 2
      && r.calls[0].downloaded == 5
      && r.calls[1].downloaded == (if corrected then 5 else 0)
  {
    var s0 := MonitorState(0, None, 0.0);
    var samples := [Sample(Seen, 1.0), Sample(Gone, 4.0)];
    assert Seen.sizeAt(ExampleJob.target) == Some(5);
    assert Locate(ExampleJob, None, Seen).size == 5;
    var step1 := Poll(ExampleJob, s0, Seen, 1.0, HeartbeatBytes(ExampleJob, s0, corrected));
    RunUnfold(ExampleJob, s0, samples, corrected);
    assert step1.state.lastSize == 5 && step1.state.lastUpdate == 1.0;
    assert step1.call.Some? && step1.call.value.downloaded == 5;
    assert Locate(ExampleJob, step1.state.found, Gone).size == 0;
    var step2 := Poll(ExampleJob, step1.state, Gone, 4.0, HeartbeatBytes(ExampleJob, step1.state, corrected));
    RunUnfold(ExampleJob, step1.state, samples[1..], corrected);
    assert step2.call.Some? && step2.call.value.downloaded == (if corrected then 5 else 0);
    assert samples[1..][1..] == [];
  }

  /** As written, the run of the example goes back from 5 bytes to 0. */
  lemma HeartbeatRegresses()
    ensures var r := Run(ExampleJob, MonitorState(0, None, 0.0), [Sample(Seen, 1.0), Sample(Gone, 4.0)], false);
      |r.calls| == 2 && r.calls[1].downloaded < r.calls[0].downloaded
  {
    ExampleRun(false);
  }
}
