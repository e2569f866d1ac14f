/** Option/Result wrappers and the few Python `str` operations the pipeline relies on
    (`isspace`, `strip`, `split()`, `in`, `find`, `startswith`, `str(int)`, `join`). */
module Common {

  datatype Option<+T> = None | Some(value: T)

  /** The outcome of a call that may raise: `Err` carries the exception. */
  datatype Result<+T, +E> = Ok(value: T) | Err(error: E)

  /** Python's `str.isspace()` on one character (the Unicode whitespace set). */
  predicate IsSpace(c: char)
  {
    || c == ' ' || c == '\t' || c == '\n' || c == '\r' || c == '\U{B}' || c == '\U{C}'
    || ('\U{1C}' <= c <= '\U{1F}') || c == '\U{85}' || c == '\U{A0}' || c == '\U{1680}'
    || ('\U{2000}' <= c <= '\U{200A}') || c == '\U{2028}' || c == '\U{2029}'
    || c == '\U{202F}' || c == '\U{205F}' || c == '\U{3000}'
  }

  /** Index of the first non-whitespace character at or after `from` (|s| if none). */
  function SkipSpace(s: string, from: nat): (k: nat)
    requires from <= |s|
    ensures from <= k <= |s|
    ensures forall i :: from <= i < k ==> IsSpace(s[i])
    ensures k < |s| ==> !IsSpace(s[k])
    decreases |s| - from
  {
    if from == |s| || !IsSpace(s[from]) then from else SkipSpace(s, from + 1)
  }

  /** One past the last non-whitespace character of s[lo..] (lo if there is none). */
  function TrimEnd(s: string, lo: nat): (k: nat)
    requires lo <= |s|
    ensures lo <= k <= |s|
    ensures forall i :: k <= i < |s| ==> IsSpace(s[i])
    ensures k > lo ==> !IsSpace(s[k - 1])
    decreases |s| - lo
  {
    if |s| == lo then lo
    else if IsSpace(s[|s| - 1]) then TrimEnd(s[..|s| - 1], lo)
    else |s|
  }

  /** Python's `s.strip()`: a slice of s with no whitespace at either end, having
      dropped only whitespace. */
  function Strip(s: string): (r: string)
    ensures exists i, j :: 0 <= i <= j <= |s| && r == s[i..j] &&
              (forall k :: 0 <= k < i ==> IsSpace(s[k])) && (forall k :: j <= k < |s| ==> IsSpace(s[k]))
    ensures r != [] ==> !IsSpace(r[0]) && !IsSpace(r[|r| - 1])
    ensures (forall i :: 0 <= i < |s| ==> IsSpace(s[i])) <==> r == []
  {
    var i := SkipSpace(s, 0);
    var j := TrimEnd(s, i);
    s[i..j]
  }

  /** p occurs in s starting at index i. */
  predicate OccursAt(s: string, p: string, i: nat)
  {
    i + |p| <= |s| && s[i..i + |p|] == p
  }

  /** Python's `s.find(p, from)`: the first occurrence of p at or after `from`. */
  function Find(s: string, p: string, from: nat): (r: Option<nat>)
    ensures r.Some? ==> from <= r.value && OccursAt(s, p, r.value)
    ensures r.Some? ==> forall k: nat :: from <= k < r.value ==> !OccursAt(s, p, k)
    ensures r.None? ==> forall k: nat :: from <= k ==> !OccursAt(s, p, k)
    decreases |s| - from
  {
    if from + |p| > |s| then None
    else if s[from..from + |p|] == p then Some(from)
    else Find(s, p, from + 1)
  }

  /** Python's `p in s`. */
  predicate Contains(s: string, p: string)
  {
    Find(s, p, 0).Some?
  }

  lemma ContainsIff(s: string, p: string)
    ensures Contains(s, p) <==> exists k: nat :: OccursAt(s, p, k)
  {
    if !Contains(s, p) {
      forall k: nat ensures !OccursAt(s, p, k) { }
    }
  }

  /** An occurrence inside a slice of s is an occurrence in s. */
  lemma {:induction false} ContainsSlice(s: string, p: string, i: nat, j: nat)
    requires i <= j <= |s|
    ensures Contains(s[i..j], p) ==> Contains(s, p)
  {
    if Contains(s[i..j], p) {
      ContainsIff(s[i..j], p);
      var k: nat :| OccursAt(s[i..j], p, k);
      assert k + |p| <= j - i;
      assert s[i + k..i + k + |p|] == p by {
        forall t | 0 <= t < |p| ensures s[i + k..i + k + |p|][t] == p[t] {
          assert p[t] == s[i..j][k..k + |p|][t] == s[i..j][k + t];
        }
      }
      assert OccursAt(s, p, i + k);
      ContainsIff(s, p);
    }
  }

  /** Stripping cannot create an occurrence. */
  lemma StripKeepsOut(s: string, p: string)
    requires !Contains(s, p)
    ensures !Contains(Strip(s), p)
  {
    var i, j :| 0 <= i <= j <= |s| && Strip(s) == s[i..j];
    ContainsSlice(s, p, i, j);
  }

  /** Python's `s.startswith(p)`. */
  predicate StartsWith(s: string, p: string)
  {
    |p| <= |s| && s[..|p|] == p
  }

  /** Python's `s.split(sep)[0]`: the text before the first occurrence of sep. */
  function Before(s: string, sep: string): (r: string)
    requires sep != []
    ensures !Contains(r, sep)
    ensures StartsWith(s, r)
    ensures !Contains(s, sep) ==> r == s
  {
    match Find(s, sep, 0)
    case None => s
    case Some(i) =>
      assert forall k: nat :: OccursAt(s[..i], sep, k) ==> OccursAt(s, sep, k) by {
        forall k: nat | OccursAt(s[..i], sep, k) ensures OccursAt(s, sep, k) {
          assert s[k..k + |sep|] == s[..i][k..k + |sep|];
        }
      }
      ContainsIff(s[..i], sep);
      s[..i]
  }

  /** Searching a suffix of s is searching s from the suffix's start. */
  lemma {:induction false} FindShift(s: string, p: string, a: nat, k: nat)
    requires a <= |s|
    ensures Find(s[a..], p, k).Some? <==> Find(s, p, a + k).Some?
    ensures Find(s[a..], p, k).Some? ==> Find(s[a..], p, k).value + a == Find(s, p, a + k).value
    decreases |s| - a - k
  {
    if a + k + |p| <= |s| {
      assert s[a..][k..k + |p|] == s[a + k..a + k + |p|];
      if s[a + k..a + k + |p|] != p {
        FindShift(s, p, a, k + 1);
      }
    }
  }

  /** The text before the first sep in s[a..] runs up to the first sep at or after a. */
  lemma BeforeSuffix(s: string, sep: string, a: nat)
    requires sep != [] && a <= |s|
    ensures Find(s, sep, a).Some? ==> Before(s[a..], sep) == s[a..Find(s, sep, a).value]
    ensures Find(s, sep, a).None? ==> Before(s[a..], sep) == s[a..]
  {
    FindShift(s, sep, a, 0);
  }

  /** Python's `s.split(sep)[1]`, defined when sep occurs in s: the text between the
      first and the second occurrence of sep (or up to the end). */
  function AfterFirst(s: string, sep: string): (r: string)
    requires sep != [] && Contains(s, sep)
    ensures !Contains(r, sep)
  {
    var i := Find(s, sep, 0).value;
    Before(s[i + |sep|..], sep)
  }

  /** `s.split(sep)[1]` is the text from just after the first occurrence of sep, at
      i, to the next occurrence, or to the end. */
  lemma AfterFirstSpan(s: string, sep: string, i: nat)
    requires sep != [] && Find(s, sep, 0) == Some(i)
    ensures i + |sep| <= |s|
    ensures Find(s, sep, i + |sep|).Some? ==> AfterFirst(s, sep) == s[i + |sep|..Find(s, sep, i + |sep|).value]
    ensures Find(s, sep, i + |sep|).None? ==> AfterFirst(s, sep) == s[i + |sep|..]
  {
    var a := i + |sep|;
    BeforeSuffix(s, sep, a);
    assert AfterFirst(s, sep) == Before(s[a..], sep);
  }

  /** The end of `s.split(open)[1]`: the next open after the first one, or the end. */
  function NextOrEnd(s: string, open: string, from: nat): (k: nat)
    requires from <= |s|
    ensures from <= k <= |s|
  {
    match Find(s, open, from)
    case Some(k) => k
    case None => |s|
  }

  /** `s.split(open)[1]` runs from just after the first open, at i, to NextOrEnd. */
  lemma AfterFirstUpTo(s: string, open: string)
    requires open != [] && Contains(s, open)
    ensures var i := Find(s, open, 0).value;
            i + |open| <= |s| && AfterFirst(s, open) == s[i + |open|..NextOrEnd(s, open, i + |open|)]
  {
    var i := Find(s, open, 0).value;
    AfterFirstSpan(s, open, i);
  }

  /** The first piece of the slice s[a..k] ends at the first sep inside it. */
  lemma BeforeSlice(s: string, sep: string, a: nat, k: nat)
    requires sep != [] && a <= k <= |s|
    ensures match Find(s[..k], sep, a)
            case Some(j) => a <= j <= k && Before(s[a..k], sep) == s[a..j]
            case None => Before(s[a..k], sep) == s[a..k]
  {
    BeforeSuffix(s[..k], sep, a);
    assert s[..k][a..] == s[a..k];
    match Find(s[..k], sep, a)
    case Some(j) =>
      assert s[..k][a..j] == s[a..j];
    case None =>
  }

  /** `s.split(open)[1].split(sep)[0]`: the text after the first open, at i, up to the
      first sep before the next open (at k, or the end). */
  lemma BeforeAfterFirst(s: string, open: string, sep: string)
    requires open != [] && sep != [] && Contains(s, open)
    ensures var i := Find(s, open, 0).value;
            var k := NextOrEnd(s, open, i + |open|);
            i + |open| <= k &&
            match Find(s[..k], sep, i + |open|)
            case Some(j) => i + |open| <= j <= k && Before(AfterFirst(s, open), sep) == s[i + |open|..j]
            case None => Before(AfterFirst(s, open), sep) == s[i + |open|..k]
  {
    var i := Find(s, open, 0).value;
    var a := i + |open|;
    var k := NextOrEnd(s, open, a);
    var piece := AfterFirst(s, open);
    AfterFirstUpTo(s, open);
    assert piece == s[a..k];
    BeforeSlice(s, sep, a, k);
  }

  /** Length of the run of non-whitespace characters at the start of s. */
  function WordLength(s: string): (n: nat)
    ensures n <= |s|
    ensures forall i :: 0 <= i < n ==> !IsSpace(s[i])
    ensures n < |s| ==> IsSpace(s[n])
  {
    if s == [] || IsSpace(s[0]) then 0 else 1 + WordLength(s[1..])
  }

  /** Python's `s.split()` with no argument: the maximal whitespace-free runs of s. */
  function Words(s: string): (ws: seq<string>)
    ensures forall k :: 0 <= k < |ws| ==> ws[k] != []
    ensures forall k, i :: 0 <= k < |ws| && 0 <= i < |ws[k]| ==> !IsSpace(ws[k][i])
    ensures (forall i :: 0 <= i < |s| ==> IsSpace(s[i])) ==> ws == []
    decreases |s|
  {
    if s == [] then []
    else if IsSpace(s[0]) then Words(s[1..])
    else
      var n := WordLength(s);
      [s[..n]] + Words(s[n..])
  }

  /** w is a maximal whitespace-free run of s starting at p: it occurs there, and
      is preceded and followed by whitespace or the ends of s. */
  predicate RunAt(s: string, p: nat, w: string)
  {
    && p + |w| <= |s| && s[p..p + |w|] == w
    && (p == 0 || IsSpace(s[p - 1]))
    && (p + |w| == |s| || IsSpace(s[p + |w|]))
  }

  /** ps with d added to every position. */
  function Shift(ps: seq<nat>, d: nat): (r: seq<nat>)
    ensures |r| == |ps| && forall k :: 0 <= k < |ps| ==> r[k] == ps[k] + d
  {
    seq(|ps|, k requires 0 <= k < |ps| => ps[k] + d)
  }

  /** Where each word of `Words(s)` starts in s. */
  function WordStarts(s: string): (ps: seq<nat>)
    decreases |s|
  {
    if s == [] then []
    else if IsSpace(s[0]) then Shift(WordStarts(s[1..]), 1)
    else
      var n := WordLength(s);
      [0] + Shift(WordStarts(s[n..]), n)
  }

  /** Each `ws[k]` is a maximal run of s at `ps[k]`. */
  predicate Runs(s: string, ws: seq<string>, ps: seq<nat>)
  {
    |ps| == |ws| && forall k :: 0 <= k < |ws| ==> RunAt(s, ps[k], ws[k])
  }

  predicate Increasing(ps: seq<nat>)
  {
    forall k, l :: 0 <= k < l < |ps| ==> ps[k] < ps[l]
  }

  /** Every non-whitespace character of s at or after `from` lies in one of the runs. */
  predicate Covers(s: string, ws: seq<string>, ps: seq<nat>, from: nat)
    requires |ps| == |ws|
  {
    forall i :: from <= i < |s| && !IsSpace(s[i]) ==>
      exists k :: 0 <= k < |ws| && ps[k] <= i < ps[k] + |ws[k]|
  }

  /** Python's `s.split()` is exactly the maximal whitespace-free runs of s, in order
      of position, and every non-whitespace character of s lies in one of them. */
  lemma {:induction false} WordsAreRuns(s: string)
    ensures Runs(s, Words(s), WordStarts(s))
    ensures Increasing(WordStarts(s))
    ensures Covers(s, Words(s), WordStarts(s), 0)
    decreases |s|
  {
    if s == [] {
    } else if IsSpace(s[0]) {
      var t := s[1..];
      WordsAreRuns(t);
      assert Words(s) == Words(t);
      assert WordStarts(s) == Shift(WordStarts(t), 1);
      RunsShift(s, 1, Words(t), WordStarts(t));
      CoversShift(s, 1, Words(t), WordStarts(t));
    } else {
      var n := WordLength(s);
      var t := s[n..];
      WordsAreRuns(t);
      assert Words(s) == [s[..n]] + Words(t);
      assert WordStarts(s) == [0] + Shift(WordStarts(t), n);
      if n < |s| {
        RunsShift(s, n, Words(t), WordStarts(t));
      }
      CoversShift(s, n, Words(t), WordStarts(t));
      assert s[0..n] == s[..n];
      RunsCons(s, s[..n], Words(t), Shift(WordStarts(t), n));
    }
  }

  /** A run of the suffix s[d..] that follows whitespace, or a word ended by whitespace,
      is a run of s. */
  lemma RunShiftOne(s: string, d: nat, p: nat, w: string)
    requires 0 < d <= |s|
    requires IsSpace(s[d - 1]) || (d < |s| && IsSpace(s[d]))
    requires w != [] && !IsSpace(w[0]) && RunAt(s[d..], p, w)
    ensures RunAt(s, p + d, w) && p + d > 0
  {
    var t := s[d..];
    assert t[p..p + |w|] == s[p + d..p + d + |w|];
    if p == 0 {
      assert t[0] == w[0];
    } else {
      assert t[p - 1] == s[p + d - 1];
    }
    if p + |w| < |t| {
      assert t[p + |w|] == s[p + d + |w|];
    }
  }

  lemma RunsShift(s: string, d: nat, ws: seq<string>, ps: seq<nat>)
    requires 0 < d <= |s|
    requires IsSpace(s[d - 1]) || (d < |s| && IsSpace(s[d]))
    requires forall k :: 0 <= k < |ws| ==> ws[k] != [] && !IsSpace(ws[k][0])
    requires Runs(s[d..], ws, ps) && Increasing(ps)
    ensures Runs(s, ws, Shift(ps, d)) && Increasing(Shift(ps, d))
    ensures forall k :: 0 <= k < |ws| ==> Shift(ps, d)[k] > 0
  {
    forall k | 0 <= k < |ws| ensures RunAt(s, Shift(ps, d)[k], ws[k]) && Shift(ps, d)[k] > 0 {
      RunShiftOne(s, d, ps[k], ws[k]);
    }
  }

  lemma CoversShift(s: string, d: nat, ws: seq<string>, ps: seq<nat>)
    requires d <= |s| && |ps| == |ws|
    requires Covers(s[d..], ws, ps, 0)
    ensures Covers(s, ws, Shift(ps, d), d)
  {
    var qs := Shift(ps, d);
    forall i | d <= i < |s| && !IsSpace(s[i])
      ensures exists k :: 0 <= k < |ws| && qs[k] <= i < qs[k] + |ws[k]|
    {
      assert s[d..][i - d] == s[i];
      var k :| 0 <= k < |ws| && ps[k] <= i - d < ps[k] + |ws[k]|;
      assert qs[k] <= i < qs[k] + |ws[k]|;
    }
  }

  /** A leading run followed by the later runs. */
  lemma RunsCons(s: string, w0: string, ws: seq<string>, ps: seq<nat>)
    requires RunAt(s, 0, w0) && Runs(s, ws, ps) && Increasing(ps)
    requires forall k :: 0 <= k < |ws| ==> ps[k] > 0
    requires Covers(s, ws, ps, |w0|)
    ensures Runs(s, [w0] + ws, [0] + ps) && Increasing([0] + ps)
    ensures Covers(s, [w0] + ws, [0] + ps, 0)
  {
    var qs, vs := [0] + ps, [w0] + ws;
    forall k | 0 <= k < |vs| ensures RunAt(s, qs[k], vs[k]) {
      if k > 0 {
        assert qs[k] == ps[k - 1] && vs[k] == ws[k - 1];
      }
    }
    CoversCons(s, w0, ws, ps);
  }

  lemma CoversCons(s: string, w0: string, ws: seq<string>, ps: seq<nat>)
    requires |ps| == |ws| && |w0| <= |s|
    requires Covers(s, ws, ps, |w0|)
    ensures Covers(s, [w0] + ws, [0] + ps, 0)
  {
    var qs, vs := [0] + ps, [w0] + ws;
    forall i | 0 <= i < |s| && !IsSpace(s[i])
      ensures exists k :: 0 <= k < |vs| && qs[k] <= i < qs[k] + |vs[k]|
    {
      if i < |w0| {
        assert qs[0] <= i < qs[0] + |vs[0]|;
      } else {
        var k :| 0 <= k < |ws| && ps[k] <= i < ps[k] + |ws[k]|;
        assert qs[k + 1] <= i < qs[k + 1] + |vs[k + 1]|;
      }
    }
  }

  /** Python's `sep.join(parts)`. */
  function Join(sep: string, parts: seq<string>): string
  {
    if |parts| == 0 then ""
    else if |parts| == 1 then parts[0]
    else parts[0] + sep + Join(sep, parts[1..])
  }

  function DigitChar(d: nat): (c: char)
    requires d < 10
  {
    "0123456789"[d]
  }

  /** Python's `str(n)` for a non-negative integer: its decimal digits. */
  function NatToString(n: nat): (r: string)
    ensures r != []
    ensures n < 10 <==> |r| == 1
    decreases n
  {
    if n < 10 then [DigitChar(n)] else NatToString(n / 10) + [DigitChar(n % 10)]
  }

  /** Distinct numbers print differently. */
  lemma {:induction false} NatToStringInjective(m: nat, n: nat)
    requires NatToString(m) == NatToString(n)
    ensures m == n
    decreases m
  {
    if m >= 10 && n >= 10 {
      var sm, sn := NatToString(m), NatToString(n);
      assert sm[..|sm| - 1] == NatToString(m / 10);
      assert sn[..|sn| - 1] == NatToString(n / 10);
      NatToStringInjective(m / 10, n / 10);
      assert DigitChar(m % 10) == sm[|sm| - 1] == DigitChar(n % 10);
    } else if m < 10 && n < 10 {
      assert DigitChar(m) == DigitChar(n);
    }
  }

  /** Python's `str(i)` for any integer. */
  function IntToString(i: int): (r: string)
    ensures r != []
    ensures i >= 0 ==> r == NatToString(i)
  {
    if i < 0 then "-" + NatToString(-i) else NatToString(i)
  }

  /** ASCII letters fold to lower case; every other character is kept. */
  function LowerChar(c: char): (r: char)
  {
    if 'A' <= c <= 'Z' then (c as int - 'A' as int + 'a' as int) as char else c
  }

  /** Python's `s.lower()` (ASCII letters only). */
  function Lower(s: string): (r: string)
    ensures |r| == |s|
    ensures forall i :: 0 <= i < |s| ==> r[i] == LowerChar(s[i])
  {
    seq(|s|, i requires 0 <= i < |s| => LowerChar(s[i]))
  }
}
