/** Python string operations the two scripts rely on, over `seq<char>`:
    `str.strip()`, `startswith`, `endswith`, the substring test `in`,
    `lower()` on ASCII letters, `split(c, 1)`, `os.path.basename` and `str()`
    of a natural number. */
module Text {

  /** Python's `str.isspace()` for one character: the characters `strip()`
      with no argument removes. */
  predicate IsSpace(c: char)
  {
    || c == ' '
    || ('\t' <= c <= '\r')
    || ('\U{1C}' <= c <= '\U{1F}')
    || c == '\U{85}' || c == '\U{A0}' || c == '\U{1680}'
    || ('\U{2000}' <= c <= '\U{200A}')
    || c == '\U{2028}' || c == '\U{2029}' || c == '\U{202F}'
    || c == '\U{205F}' || c == '\U{3000}'
  }

  /** Neither end of `s` is whitespace: what `strip()` guarantees. */
  predicate NoOuterSpace(s: string)
  {
    |s| == 0 || (!IsSpace(s[0]) && !IsSpace(s[|s| - 1]))
  }

  /** Number of whitespace characters `lstrip()` removes from the front:
      the index of the first character that is not whitespace, or `|s|`. */
  function LeadingSpaces(s: string): (n: nat)
    ensures n <= |s|
    ensures n < |s| ==> !IsSpace(s[n])
    decreases |s|
  {
    if |s| == 0 || !IsSpace(s[0]) then 0 else 1 + LeadingSpaces(s[1..])
  }

  /** Length of `rstrip(s)`: the index just past the last character that is
      not whitespace, or 0. */
  function KeptLength(s: string): (n: nat)
    ensures n <= |s|
    ensures n > 0 ==> !IsSpace(s[n - 1])
    decreases |s|
  {
    if |s| == 0 || !IsSpace(s[|s| - 1]) then |s| else KeptLength(s[..|s| - 1])
  }

  /** `str.strip()`: the slice of `s` that starts after the leading
      whitespace and ends before the trailing whitespace. */
  function Strip(s: string): (r: string)
    ensures NoOuterSpace(r)
    ensures LeadingSpaces(s) + |r| <= |s|
    ensures r == s[LeadingSpaces(s)..LeadingSpaces(s) + |r|]
  {
    var lo := LeadingSpaces(s);
    s[lo..lo + KeptLength(s[lo..])]
  }

  /** `lstrip()` removes only whitespace. */
  lemma {:induction false} LeadingAreSpaces(s: string)
    ensures forall i | 0 <= i < LeadingSpaces(s) :: IsSpace(s[i])
    decreases |s|
  {
    if |s| > 0 && IsSpace(s[0]) {
      LeadingAreSpaces(s[1..]);
      assert forall i | 1 <= i < |s| :: s[i] == s[1..][i - 1];
    }
  }

  /** `rstrip()` removes only whitespace. */
  lemma {:induction false} TrailingAreSpaces(s: string)
    ensures forall i | KeptLength(s) <= i < |s| :: IsSpace(s[i])
    decreases |s|
  {
    if |s| > 0 && IsSpace(s[|s| - 1]) {
      TrailingAreSpaces(s[..|s| - 1]);
      assert forall i | 0 <= i < |s| - 1 :: s[i] == s[..|s| - 1][i];
    }
  }

  /** `strip()` removes only whitespace, from both ends. */
  lemma StripRemovesSpace(s: string)
    ensures forall i | 0 <= i < LeadingSpaces(s) :: IsSpace(s[i])
    ensures forall i | LeadingSpaces(s) + |Strip(s)| <= i < |s| :: IsSpace(s[i])
  {
    var lo := LeadingSpaces(s);
    var t := s[lo..];
    LeadingAreSpaces(s);
    TrailingAreSpaces(t);
    assert forall i | 0 <= i < |t| :: t[i] == s[lo + i];
  }

  /** `r` is what is left of `s[n..]` once whitespace is trimmed from both
      ends, found at offset `k` of `s`: everything between `n` and `k`, and
      everything after `r`, is whitespace. */
  ghost predicate TrimmedPiece(s: string, n: nat, k: nat, r: string)
  {
    && n <= k && k + |r| <= |s| && r == s[k..k + |r|] && NoOuterSpace(r)
    && (forall j | n <= j < k :: IsSpace(s[j]))
    && (forall j | k + |r| <= j < |s| :: IsSpace(s[j]))
  }

  /** Stripping the part of `s` after its first `n` characters gives the
      trimmed piece of `s[n..]`. */
  lemma StripTail(s: string, n: nat)
    requires n <= |s|
    ensures TrimmedPiece(s, n, n + LeadingSpaces(s[n..]), Strip(s[n..]))
  {
    var t := s[n..];
    var r := Strip(t);
    var k := n + LeadingSpaces(t);
    StripRemovesSpace(t);
    assert forall j | 0 <= j < |t| :: t[j] == s[n + j];
    assert r == t[k - n..k - n + |r|];
    assert forall m | 0 <= m < |r| :: r[m] == s[k + m];
  }

  /** The trimmed piece is unique: the trimming conditions fix it. */
  lemma TrimmedPieceUnique(s: string, n: nat, k1: nat, r1: string, k2: nat, r2: string)
    requires TrimmedPiece(s, n, k1, r1) && TrimmedPiece(s, n, k2, r2)
    ensures r1 == r2
  {
    TrimmedPieceEmpty(s, n, k1, r1);
    TrimmedPieceEmpty(s, n, k2, r2);
    if |r1| > 0 && |r2| > 0 {
      assert s[k1] == r1[0] && s[k2] == r2[0];
      assert s[k1 + |r1| - 1] == r1[|r1| - 1] && s[k2 + |r2| - 1] == r2[|r2| - 1];
      assert k1 == k2;
      assert k1 + |r1| == k2 + |r2|;
    }
  }

  /** The trimmed piece is empty exactly when `s[n..]` is all whitespace. */
  lemma TrimmedPieceEmpty(s: string, n: nat, k: nat, r: string)
    requires TrimmedPiece(s, n, k, r)
    ensures |r| == 0 <==> forall j | n <= j < |s| :: IsSpace(s[j])
  {
    if |r| > 0 {
      assert s[k] == r[0];
    }
  }

  /** A string without outer whitespace is its own strip. */
  lemma StripFixesClean(s: string)
    requires NoOuterSpace(s)
    ensures Strip(s) == s
  {
  }

  /** `strip()` is idempotent. */
  lemma StripIdempotent(s: string)
    ensures Strip(Strip(s)) == Strip(s)
  {
    StripFixesClean(Strip(s));
  }

  predicate StartsWith(s: string, prefix: string)
  {
    |prefix| <= |s| && s[..|prefix|] == prefix
  }

  predicate EndsWith(s: string, suffix: string)
  {
    |suffix| <= |s| && s[|s| - |suffix|..] == suffix
  }

  /** Python's `part in s` for strings: `part` occurs at some offset of `s`
      (the empty string occurs in every string). */
  predicate Contains(s: string, part: string)
    decreases |s|
  {
    StartsWith(s, part) || (|s| > 0 && Contains(s[1..], part))
  }

  /** An occurrence of `part` at offset `k` makes `Contains` true. */
  lemma {:induction false} ContainsAt(s: string, part: string, k: nat)
    requires k + |part| <= |s| && s[k..k + |part|] == part
    ensures Contains(s, part)
    decreases k
  {
    if k > 0 {
      assert s[1..][k - 1..k - 1 + |part|] == part;
      ContainsAt(s[1..], part, k - 1);
    }
  }

  /** `lower()` on one character, ASCII letters only. */
  function LowerChar(c: char): char
  {
    if 'A' <= c <= 'Z' then (c as int + 32) as char else c
  }

  function Lower(s: string): (r: string)
    ensures |r| == |s|
    ensures forall i | 0 <= i < |s| :: r[i] == LowerChar(s[i])
  {
    seq(|s|, i requires 0 <= i < |s| => LowerChar(s[i]))
  }

  /** Lowering commutes with taking a prefix. */
  lemma LowerPrefix(s: string, n: nat)
    requires n <= |s|
    ensures Lower(s)[..n] == Lower(s[..n])
  {
  }

  /** Index of the first occurrence of `c` in `s`. */
  function IndexOf(s: string, c: char): (i: nat)
    requires c in s
    ensures i < |s| && s[i] == c
    ensures c !in s[..i]
  {
    if s[0] == c then 0 else 1 + IndexOf(s[1..], c)
  }

  /** `s.split(c, 1)` when `c` occurs in `s`: the text before the first `c`
      and everything after it, which may contain `c` again. */
  function SplitFirst(s: string, c: char): (r: (string, string))
    requires c in s
    ensures s == r.0 + [c] + r.1
    ensures c !in r.0
  {
    var i := IndexOf(s, c);
    assert s == s[..i] + [c] + s[i + 1..];
    (s[..i], s[i + 1..])
  }

  /** Splitting `k + [c] + v` at the first `c` gives back `k` and `v` when
      `k` holds no `c`. */
  lemma {:induction false} SplitFirstJoin(k: string, c: char, v: string)
    requires c !in k
    ensures c in k + [c] + v
    ensures SplitFirst(k + [c] + v, c) == (k, v)
  {
    var s := k + [c] + v;
    assert s[|k|] == c;
    assert forall j | 0 <= j < |k| :: s[j] == k[j];
    var i := IndexOf(s, c);
    assert i == |k|;
    assert s[..i] == k;
    assert s[i + 1..] == v;
  }

  /** `os.path.basename` on POSIX: the part of `path` after its last `/`. */
  function Basename(path: string): (r: string)
    ensures '/' !in r
    ensures EndsWith(path, r)
    ensures |r| < |path| ==> path[|path| - |r| - 1] == '/'
  {
    if |path| == 0 || path[|path| - 1] == '/' then ""
    else Basename(path[..|path| - 1]) + [path[|path| - 1]]
  }

  function DigitChar(d: nat): char
    requires d < 10
  {
    "0123456789"[d]
  }

  /** `str(n)` for a natural number: its decimal digits, no leading zero. */
  function NatToString(n: nat): (r: string)
    ensures |r| > 0
    ensures forall i | 0 <= i < |r| :: '0' <= r[i] <= '9'
    ensures |r| > 1 ==> r[0] != '0'
  {
    if n < 10 then [DigitChar(n)] else NatToString(n / 10) + [DigitChar(n % 10)]
  }

}
