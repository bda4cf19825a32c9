/** The caption service's text logic: cleaning the model's answer, reading
    the `.env.caption` file, and choosing the model path. */
module CaptionText {
  import opened Wrappers
  import opened Text

  /** The lead-ins a model answer may start with, in the order they are
      tried; matching ignores ASCII case. */
  const CaptionPrefixes: seq<string> := [
    "caption:", "here's the caption:", "here is the caption:", "the caption is:",
    "description:", "here's the description:", "here is the description:",
    "assistant:", "answer:", "image:"
  ]

  /** The index of the first of `prefixes` that `s` starts with. */
  function FirstPrefix(s: string, prefixes: seq<string>): (r: Option<nat>)
    ensures r.Some? ==> r.value < |prefixes| && StartsWith(s, prefixes[r.value])
    ensures r.Some? ==> forall j | 0 <= j < r.value :: !StartsWith(s, prefixes[j])
    ensures r.None? ==> forall j | 0 <= j < |prefixes| :: !StartsWith(s, prefixes[j])
  {
    if |prefixes| == 0 then None
    else if StartsWith(s, prefixes[0]) then Some(0)
    else match FirstPrefix(s, prefixes[1..])
      case None => None
      case Some(i) => Some(i + 1)
  }

  /** The caption returned for the model's answer `raw`: the answer
      stripped, then — if its lower-case form starts with a listed lead-in —
      the first such lead-in cut off and the rest stripped again. The result
      has no outer whitespace and is a piece of the answer; without a
      lead-in it is just the stripped answer; with one, it is what follows
      the lead-in with the whitespace around it trimmed, which fixes it
      (`TrimmedPieceUnique`). */
  function CleanCaption(raw: string): (r: string)
    ensures NoOuterSpace(r)
    ensures Contains(raw, r)
    ensures FirstPrefix(Lower(Strip(raw)), CaptionPrefixes).None? ==> r == Strip(raw)
    ensures FirstPrefix(Lower(Strip(raw)), CaptionPrefixes).Some? ==>
      var c := Strip(raw);
      var lead := CaptionPrefixes[FirstPrefix(Lower(c), CaptionPrefixes).value];
      && |lead| <= |c| && Lower(c[..|lead|]) == lead
      && |r| < |c|
      && exists k :: TrimmedPiece(c, |lead|, k, r)
  {
    var caption := Strip(raw);
    match FirstPrefix(Lower(caption), CaptionPrefixes)
    case None =>
      ContainsAt(raw, caption, LeadingSpaces(raw));
      caption
    case Some(i) =>
      var n := |CaptionPrefixes[i]|;
      LeadInsNonEmpty(i);
      LowerPrefix(caption, n);
      StrippedTailInside(raw, n);
      StripTail(caption, n);
      Strip(caption[n..])
  }

  lemma LeadInsNonEmpty(i: nat)
    requires i < |CaptionPrefixes|
    ensures |CaptionPrefixes[i]| > 0
  {
  }

  /** What is left of the stripped answer after its first `n` characters,
      stripped again, is a piece of the answer. */
  lemma StrippedTailInside(raw: string, n: nat)
    requires n <= |Strip(raw)|
    ensures Contains(raw, Strip(Strip(raw)[n..]))
  {
    var caption := Strip(raw);
    var a := LeadingSpaces(raw);
    var rest := caption[n..];
    var b := LeadingSpaces(rest);
    var r := Strip(rest);
    TailInside(raw, caption, a, n, b, r);
  }

  /** If `caption` is found in `raw` at offset `a`, and `r` is found in
      what follows its first `n` characters at offset `b`, then `r` is
      found in `raw`. */
  lemma TailInside(raw: string, caption: string, a: nat, n: nat, b: nat, r: string)
    requires a + |caption| <= |raw| && raw[a..a + |caption|] == caption
    requires n <= |caption| && b + |r| <= |caption| - n && caption[n..][b..b + |r|] == r
    ensures Contains(raw, r)
  {
    SubPiece(raw, caption, a, n, |caption|);
    SubPiece(raw, caption[n..], a + n, b, b + |r|);
    ContainsAt(raw, r, a + n + b);
  }

  /** Part `i..j` of a piece of `s` found at offset `k` is found at
      `k + i`. */
  lemma SubPiece(s: string, piece: string, k: nat, i: nat, j: nat)
    requires k + |piece| <= |s| && s[k..k + |piece|] == piece
    requires i <= j <= |piece|
    ensures s[k + i..k + j] == piece[i..j]
  {
    assert forall m | 0 <= m < j - i :: piece[i..j][m] == piece[i + m] == s[k + i + m];
  }

  /** Only one lead-in is removed: an answer that starts with two keeps the
      second. */
  lemma OnlyOnePrefixRemoved(body: string)
    requires |body| > 0 && NoOuterSpace(body)
    ensures CleanCaption("Caption: Description: " + body) == "Description: " + body
  {
    var kept := "Description: " + body;
    var s := "Caption:" + " " + kept;
    assert s == "Caption: Description: " + body;
    assert NoOuterSpace(kept) by {
      assert kept[|kept| - 1] == body[|body| - 1];
    }
    assert Strip(s) == s by {
      assert s[|s| - 1] == kept[|kept| - 1];
      StripFixesClean(s);
    }
    assert FirstPrefix(Lower(s), CaptionPrefixes) == Some(0) by {
      LowerPrefix(s, 8);
      assert s[..8] == "Caption:";
      assert Lower("Caption:") == "caption:";
    }
    assert Strip(s[8..]) == kept by {
      assert s[8..] == " " + kept;
      StripOneSpace(kept);
    }
    CleanCaptionCut(s, 0);
  }

  /** One space in front of a clean string is all `strip()` removes. */
  lemma StripOneSpace(t: string)
    requires |t| > 0 && NoOuterSpace(t)
    ensures Strip(" " + t) == t
  {
    var s := " " + t;
    assert s[1..] == t;
    assert LeadingSpaces(s) == 1;
    StripFixesClean(t);
  }

  /** With a lead-in found, the caption is what follows it, stripped. */
  lemma CleanCaptionCut(raw: string, i: nat)
    requires FirstPrefix(Lower(Strip(raw)), CaptionPrefixes) == Some(i)
    ensures i < |CaptionPrefixes| && |CaptionPrefixes[i]| <= |Strip(raw)|
    ensures CleanCaption(raw) == Strip(Strip(raw)[|CaptionPrefixes[i]|..])
  {
  }

  /** An answer without outer whitespace and without a lead-in is returned
      unchanged. */
  lemma CleanCaptionKeepsPlainAnswer(raw: string)
    requires NoOuterSpace(raw)
    requires forall j | 0 <= j < |CaptionPrefixes| :: !StartsWith(Lower(raw), CaptionPrefixes[j])
    ensures CleanCaption(raw) == raw
  {
    StripFixesClean(raw);
    assert FirstPrefix(Lower(raw), CaptionPrefixes).None?;
  }

  /** Cleaning a caption a second time removes nothing more unless the
      caption itself starts with a lead-in. */
  lemma CleanCaptionStable(raw: string)
    requires FirstPrefix(Lower(CleanCaption(raw)), CaptionPrefixes).None?
    ensures CleanCaption(CleanCaption(raw)) == CleanCaption(raw)
  {
    StripFixesClean(CleanCaption(raw));
  }

  /** One line of `.env.caption` after `strip()`: skipped when blank, a
      `#` comment or without `=`; otherwise the line is split at its first
      `=` and the key before it and the value after it are each stripped.
      The value may itself contain `=`. */
  function ParseEnvLine(line: string): (r: Option<(string, string)>)
    ensures r.Some? <==> var t := Strip(line); t != "" && !StartsWith(t, "#") && '=' in t
    ensures r.Some? ==> var t := Strip(line);
      exists n | 0 <= n < |t| && t[n] == '=' && '=' !in t[..n] ::
        r.value == (Strip(t[..n]), Strip(t[n + 1..]))
    ensures r.Some? ==> '=' !in r.value.0 && NoOuterSpace(r.value.0) && NoOuterSpace(r.value.1)
  {
    var t := Strip(line);
    if t != "" && !StartsWith(t, "#") && '=' in t then
      var parts := SplitFirst(t, '=');
      assert t == parts.0 + "=" + parts.1;
      var n := |parts.0|;
      assert t[n] == '=' && t[..n] == parts.0 && t[n + 1..] == parts.1;
      assert '=' !in Strip(parts.0) by {
        assert forall c | c in Strip(parts.0) :: c in parts.0;
      }
      Some((Strip(parts.0), Strip(parts.1)))
    else None
  }

  /** A line written as `key=value` with a clean key that holds no `=` and
      does not start with `#`, and a clean value, parses back to that key
      and value. */
  lemma ParseEnvLineRoundTrip(key: string, value: string)
    requires key != "" && key[0] != '#' && '=' !in key
    requires NoOuterSpace(key) && NoOuterSpace(value)
    ensures ParseEnvLine(key + "=" + value) == Some((key, value))
  {
    var line := key + "=" + value;
    assert line[0] == key[0];
    assert line[|line| - 1] == if value == "" then '=' else value[|value| - 1];
    assert NoOuterSpace(line);
    StripFixesClean(line);
    assert !StartsWith(line, "#");
    SplitFirstJoin(key, '=', value);
    StripFixesClean(key);
    StripFixesClean(value);
  }

  /** `os.environ[key] = value` on a POSIX system raises for an empty key
      and for a key or value holding a NUL character. */
  predicate SettableEnv(key: string, value: string)
  {
    key != "" && '\0' !in key && '\0' !in value
  }

  /** What each line of the file says: a key and a value, or nothing. */
  function ParseEnvFile(lines: seq<string>): (entries: seq<Option<(string, string)>>)
    ensures |entries| == |lines|
    ensures forall i | 0 <= i < |lines| :: entries[i] == ParseEnvLine(lines[i])
  {
    seq(|lines|, i requires 0 <= i < |lines| => ParseEnvLine(lines[i]))
  }

  /** A parsed line that `os.environ` would refuse. */
  predicate RefusedEntry(entry: Option<(string, string)>)
  {
    entry.Some? && !SettableEnv(entry.value.0, entry.value.1)
  }

  /** Setting the parsed lines in order; `None` once one is refused. */
  function ApplyEntries(env: map<string, string>, entries: seq<Option<(string, string)>>): Option<map<string, string>>
  {
    if |entries| == 0 then Some(env)
    else
      match ApplyEntries(env, entries[..|entries| - 1])
      case None => None
      case Some(m) =>
        match entries[|entries| - 1]
        case None => Some(m)
        case Some(kv) => if SettableEnv(kv.0, kv.1) then Some(m[kv.0 := kv.1]) else None
  }

  /** The value the last parsed line gives `key`, if any line does. */
  function LastValue(entries: seq<Option<(string, string)>>, key: string): Option<string>
  {
    if |entries| == 0 then None
    else
      var e := entries[|entries| - 1];
      if e.Some? && e.value.0 == key then Some(e.value.1) else LastValue(entries[..|entries| - 1], key)
  }

  /** Reading `.env.caption` line by line into the environment `env`. A
      line the environment refuses raises and stops the service's startup,
      which the result reports as `None`. */
  function LoadEnv(env: map<string, string>, lines: seq<string>): Option<map<string, string>>
  {
    ApplyEntries(env, ParseEnvFile(lines))
  }

  lemma {:induction false} ApplyEntriesFails(env: map<string, string>, entries: seq<Option<(string, string)>>)
    ensures ApplyEntries(env, entries).None? <==> exists i | 0 <= i < |entries| :: RefusedEntry(entries[i])
    decreases |entries|
  {
    if |entries| > 0 {
      var prefix := entries[..|entries| - 1];
      ApplyEntriesFails(env, prefix);
      assert forall i | 0 <= i < |entries| :: entries[i] == (if i < |prefix| then prefix[i] else entries[|entries| - 1]);
    }
  }

  lemma {:induction false} LaterEntryWins(env: map<string, string>, entries: seq<Option<(string, string)>>, key: string)
    requires ApplyEntries(env, entries).Some?
    ensures var m := ApplyEntries(env, entries).value;
      && (LastValue(entries, key).Some? ==> key in m && m[key] == LastValue(entries, key).value)
      && (LastValue(entries, key).None? ==> (key in m <==> key in env) && (key in env ==> m[key] == env[key]))
    decreases |entries|
  {
    if |entries| > 0 {
      LaterEntryWins(env, entries[..|entries| - 1], key);
    }
  }

  /** Loading fails exactly when some line parses to a key and value the
      environment refuses. */
  lemma LoadEnvFails(env: map<string, string>, lines: seq<string>)
    ensures LoadEnv(env, lines).None? <==>
      exists i | 0 <= i < |lines| :: RefusedEntry(ParseEnvLine(lines[i]))
  {
    var entries := ParseEnvFile(lines);
    ApplyEntriesFails(env, entries);
    assert forall i | 0 <= i < |lines| :: entries[i] == ParseEnvLine(lines[i]);
  }

  /** After loading, each key holds the value of the last line that sets
      it; a key no line sets keeps its value from the environment. */
  lemma LaterLineWins(env: map<string, string>, lines: seq<string>, key: string)
    requires LoadEnv(env, lines).Some?
    ensures var m := LoadEnv(env, lines).value;
      var last := LastValue(ParseEnvFile(lines), key);
      && (last.Some? ==> key in m && m[key] == last.value)
      && (last.None? ==> (key in m <==> key in env) && (key in env ==> m[key] == env[key]))
  {
    LaterEntryWins(env, ParseEnvFile(lines), key);
  }

  const DevModelPathKey: string := "DEV_MODEL_PATH"
  const ProductionModelPath: string := "/workspace/models/Qwen2.5-VL-7B-Instruct-Q8_0.gguf"

  /** `os.getenv('DEV_MODEL_PATH')`. */
  function DevModelPath(env: map<string, string>): Option<string>
  {
    if DevModelPathKey in env then Some(env[DevModelPathKey]) else None
  }

  /** The model file the service loads: the development path when it is
      set and non-empty, the production path otherwise. */
  function ModelPath(dev: Option<string>): (p: string)
    ensures p != ""
    ensures dev.Some? && dev.value != "" ==> p == dev.value
    ensures p == ProductionModelPath <==> dev.None? || dev.value == "" || dev.value == ProductionModelPath
  {
    if dev.Some? && dev.value != "" then dev.value else ProductionModelPath
  }

  /** What `/health` reports as `dev_mode`: whether the variable is set at
      all, even to the empty string. */
  predicate DevMode(dev: Option<string>)
  {
    dev.Some?
  }

  /** An empty `DEV_MODEL_PATH` makes the health report claim development
      mode while the production model path is in use. */
  lemma EmptyDevPathReportsDevMode()
    ensures DevMode(Some("")) && ModelPath(Some("")) == ProductionModelPath
  {
  }

  /** A `.env.caption` line `DEV_MODEL_PATH=p`, with `p` clean and
      non-empty, selects `p` as the model path when it is the last line
      that sets the variable. */
  lemma EnvFileSelectsDevModel(env: map<string, string>, lines: seq<string>, p: string)
    requires |lines| > 0 && lines[|lines| - 1] == DevModelPathKey + "=" + p
    requires p != "" && NoOuterSpace(p) && '\0' !in p
    requires LoadEnv(env, lines).Some?
    ensures ModelPath(DevModelPath(LoadEnv(env, lines).value)) == p
    ensures DevMode(DevModelPath(LoadEnv(env, lines).value))
  {
    ParseEnvLineRoundTrip(DevModelPathKey, p);
    var entries := ParseEnvFile(lines);
    assert entries[|entries| - 1] == Some((DevModelPathKey, p));
    assert LastValue(entries, DevModelPathKey) == Some(p);
    LaterLineWins(env, lines, DevModelPathKey);
  }
}
