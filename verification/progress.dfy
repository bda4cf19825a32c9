/** The progress record the downloader writes for the UI (`update_progress`):
    bytes downloaded, the total, a percentage clamped below 100, a label, and
    the speed and ETA estimates it is handed. */
module Progress {
  import opened Wrappers

  datatype ProgressRecord = ProgressRecord(
    downloaded: nat,
    total: nat,
    percent: nat,
    currentFile: string,
    speed: real,
    eta: real)

  /** A record is written only when a progress-file path is configured:
      `None` and the empty string both mean "do not report". */
  predicate Reporting(progressFile: Option<string>)
  {
    progressFile.Some? && progressFile.value != ""
  }

  function Min(a: nat, b: nat): nat
  {
    if a <= b then a else b
  }

  /** The reported percentage: `downloaded * 100 / total` rounded down,
      capped at 99, and 0 when the total is unknown. */
  function Percent(downloaded: nat, total: nat): (p: nat)
    ensures p <= 99
    ensures total == 0 ==> p == 0
  {
    if total > 0 then Min(99, downloaded * 100 / total) else 0
  }

  /** The same percentage stated without division: below the cap it is the
      unique `p` with `p * total <= downloaded * 100 < (p + 1) * total`, and
      the cap is reached only at 99 percent or more. */
  lemma PercentIsFloor(downloaded: nat, total: nat)
    requires total > 0
    ensures var p := Percent(downloaded, total);
      && (p < 99 ==> p * total <= downloaded * 100 < (p + 1) * total)
      && (p == 99 ==> 99 * total <= downloaded * 100)
  {
    var q := downloaded * 100 / total;
    assert q * total + downloaded * 100 % total == downloaded * 100;
    if q >= 99 {
      MulMonotone(99, q, total);
    }
  }

  lemma MulMonotone(a: nat, b: nat, t: nat)
    requires a <= b
    ensures a * t <= b * t
  {
  }

  lemma MulCancelLt(a: nat, b: nat, t: nat)
    requires a * t < b * t
    ensures a < b
  {
    if b <= a {
      MulMonotone(b, a, t);
    }
  }

  /** More bytes never lower the percentage for the same total. */
  lemma PercentMonotone(d1: nat, d2: nat, total: nat)
    requires d1 <= d2
    ensures Percent(d1, total) <= Percent(d2, total)
  {
    var p1, p2 := Percent(d1, total), Percent(d2, total);
    if total > 0 && p2 < 99 {
      PercentIsFloor(d1, total);
      PercentIsFloor(d2, total);
      assert p1 * total <= d1 * 100 <= d2 * 100 < (p2 + 1) * total;
      MulCancelLt(p1, p2 + 1, total);
    }
  }

  /** Once every byte of the total is counted the percentage is 99, never
      100: the cap holds even for a complete download. */
  lemma PercentOfCompleteIs99(downloaded: nat, total: nat)
    requires 0 < total <= downloaded
    ensures Percent(downloaded, total) == 99
  {
    var p := Percent(downloaded, total);
    PercentIsFloor(downloaded, total);
    MulMonotone(total, downloaded, 100);
    if p < 99 {
      assert 100 * total <= downloaded * 100 < (p + 1) * total;
      MulCancelLt(100, p + 1, total);
    }
  }

  /** The record for one `update_progress` call. When the total is not
      positive the record reports `downloaded` as its total. */
  function Record(downloaded: nat, total: nat, currentFile: string, speed: real, eta: real): (r: ProgressRecord)
    ensures r.downloaded == downloaded && r.currentFile == currentFile
    ensures r.speed == speed && r.eta == eta
    ensures r.total == (if total > 0 then total else downloaded)
    ensures r.percent == Percent(downloaded, total) && r.percent <= 99
    ensures downloaded <= total ==> r.downloaded <= r.total
    ensures r.total == 0 ==> r.downloaded == 0
  {
    ProgressRecord(
      downloaded,
      if total > 0 then total else downloaded,
      Percent(downloaded, total),
      currentFile,
      speed,
      eta)
  }

  /** `update_progress`: the record written to the progress file, or nothing
      when no progress file is configured. */
  function Update(progressFile: Option<string>, downloaded: nat, total: nat, currentFile: string,
                  speed: real, eta: real): (r: Option<ProgressRecord>)
    ensures r.Some? <==> Reporting(progressFile)
    ensures r.Some? ==> r.value == Record(downloaded, total, currentFile, speed, eta)
    ensures r.Some? ==> r.value.downloaded == downloaded && r.value.percent <= 99
  {
    if Reporting(progressFile) then Some(Record(downloaded, total, currentFile, speed, eta)) else None
  }

  /** A record's percentage agrees with its own `downloaded` and `total`
      fields exactly when the total was known or nothing was downloaded:
      with an unknown total the record claims `downloaded` of `downloaded`
      bytes, yet reports 0 percent. */
  lemma RecordSelfConsistent(downloaded: nat, total: nat, currentFile: string, speed: real, eta: real)
    ensures var r := Record(downloaded, total, currentFile, speed, eta);
      r.percent == Percent(r.downloaded, r.total) <==> total > 0 || downloaded == 0
  {
    if total == 0 && downloaded > 0 {
      PercentOfCompleteIs99(downloaded, downloaded);
    }
  }
}
