/**
 * Optional values, used where the Python code returns `None`.
 */
module Maybe {
  datatype Option<+T> = None | Some(value: T)
}

/**
 * The handful of Python `str` operations the core relies on:
 * `strip()`, `lower()`, `in`, `find`/`split` on a fixed separator,
 * `",".join(...)` and `str(n)` for a natural number.
 */
module Text {
  import opened Maybe

  /** Python's `str.isspace()` for one character: the characters `strip()` removes. */
  predicate IsSpace(c: char) {
    ('\t' <= c <= '\r') || ('\U{001C}' <= c <= ' ') || c == '\U{0085}' || c == '\U{00A0}'
    || c == '\U{1680}' || ('\U{2000}' <= c <= '\U{200A}') || c == '\U{2028}' || c == '\U{2029}'
    || c == '\U{202F}' || c == '\U{205F}' || c == '\U{3000}'
  }

  predicate AllSpace(s: string) {
    forall i :: 0 <= i < |s| ==> IsSpace(s[i])
  }

  /** The number of white-space characters `s.lstrip()` removes. */
  function LeadingSpace(s: string): (k: nat)
    ensures k <= |s| && AllSpace(s[..k])
    ensures k < |s| ==> !IsSpace(s[k])
  {
    if |s| > 0 && IsSpace(s[0]) then
      var k := LeadingSpace(s[1..]);
      assert s[..k + 1] == [s[0]] + s[1..][..k];
      k + 1
    else 0
  }

  /** The length that `s.rstrip()` keeps. */
  function TrailingStart(s: string): (k: nat)
    ensures k <= |s| && AllSpace(s[k..])
    ensures 0 < k ==> !IsSpace(s[k - 1])
  {
    if |s| > 0 && IsSpace(s[|s| - 1]) then
      var k := TrailingStart(s[..|s| - 1]);
      assert s[k..] == s[..|s| - 1][k..] + [s[|s| - 1]];
      k
    else |s|
  }

  /**
   * `s.strip()`: `s` without its leading and trailing white space; what is
   * removed is all white space and what is kept neither starts nor ends
   * with any.
   */
  function Strip(s: string): (r: string)
    ensures var i := LeadingSpace(s);
      i + |r| <= |s| && r == s[i..i + |r|] && AllSpace(s[..i]) && AllSpace(s[i + |r|..])
    ensures r == [] || (!IsSpace(r[0]) && !IsSpace(r[|r| - 1]))
  {
    var i := LeadingSpace(s);
    var j := TrailingStart(s[i..]);
    assert s[i..][j..] == s[i + j..];
    s[i..][..j]
  }

  /** `lstrip` stops at the first character that is not white space. */
  lemma LeadingSpaceOf(w: string, y: string)
    requires AllSpace(w) && y != [] && !IsSpace(y[0])
    ensures LeadingSpace(w + y) == |w|
  {
    var s, i := w + y, LeadingSpace(w + y);
    forall j | 0 <= j < i ensures IsSpace(s[j]) {
      assert s[j] == s[..i][j];
    }
    forall j | 0 <= j < |w| ensures IsSpace(s[j]) {
      assert s[j] == w[j];
    }
    assert s[|w|] == y[0];
  }

  /** `rstrip` stops after the last character that is not white space. */
  lemma TrailingStartOf(y: string, w: string)
    requires AllSpace(w) && y != [] && !IsSpace(y[|y| - 1])
    ensures TrailingStart(y + w) == |y|
  {
    var s, k := y + w, TrailingStart(y + w);
    forall j | k <= j < |s| ensures IsSpace(s[j]) {
      assert s[j] == s[k..][j - k];
    }
    forall j | |y| <= j < |s| ensures IsSpace(s[j]) {
      assert s[j] == w[j - |y|];
    }
    assert s[|y| - 1] == y[|y| - 1];
  }

  /** Stripping white space from around a word that neither starts nor ends with any gives the word. */
  lemma StripAround(w1: string, x: string, w2: string)
    requires AllSpace(w1) && AllSpace(w2)
    requires x != [] && !IsSpace(x[0]) && !IsSpace(x[|x| - 1])
    ensures Strip(w1 + x + w2) == x
  {
    var s := w1 + x + w2;
    assert s == w1 + (x + w2);
    LeadingSpaceOf(w1, x + w2);
    assert s[|w1|..] == x + w2;
    TrailingStartOf(x, w2);
    assert (x + w2)[..|x|] == x;
  }

  /** `c.lower()` on the ASCII letters; every other character is kept. */
  function LowerChar(c: char): (r: char)
    ensures 'A' <= c <= 'Z' ==> r as int == c as int + 32
    ensures !('A' <= c <= 'Z') ==> r == c
  {
    if 'A' <= c <= 'Z' then (c as int + 32) as char else c
  }

  /** `s.lower()`, character by character. */
  function Lower(s: string): (r: string)
    ensures |r| == |s|
    ensures forall i :: 0 <= i < |s| ==> r[i] == LowerChar(s[i])
  {
    seq(|s|, i requires 0 <= i < |s| => LowerChar(s[i]))
  }

  /** `pat` occurs in `s` starting at index `i`. */
  predicate OccursAt(s: string, pat: string, i: int) {
    0 <= i && i + |pat| <= |s| && s[i..i + |pat|] == pat
  }

  /** An occurrence inside a slice is an occurrence in the whole string, shifted by the slice's start. */
  lemma OccursInSlice(s: string, pat: string, lo: nat, hi: nat, k: int)
    requires lo <= hi <= |s|
    ensures OccursAt(s[lo..hi], pat, k) ==> OccursAt(s, pat, lo + k) && lo + k + |pat| <= hi
  {
    var t := s[lo..hi];
    if OccursAt(t, pat, k) {
      forall j | 0 <= j < |pat| ensures s[lo + k + j] == pat[j] {
        assert t[k..k + |pat|][j] == pat[j];
        assert t[k + j] == s[lo + k + j];
      }
      assert s[lo + k..lo + k + |pat|] == pat;
    }
  }

  /**
   * `s.find(pat, start)`: the first index at or after `start` where `pat`
   * occurs, or `None` when there is none.
   */
  function IndexOf(s: string, pat: string, start: nat): (r: Option<nat>)
    ensures r.Some? ==> start <= r.value && OccursAt(s, pat, r.value)
    ensures r.Some? ==> forall k :: start <= k < r.value ==> !OccursAt(s, pat, k)
    ensures r.None? ==> forall k :: start <= k ==> !OccursAt(s, pat, k)
    decreases |s| - start
  {
    if start + |pat| > |s| then None
    else if s[start..start + |pat|] == pat then Some(start)
    else IndexOf(s, pat, start + 1)
  }

  /** Python's `pat in s`. */
  predicate Contains(s: string, pat: string) {
    IndexOf(s, pat, 0).Some?
  }

  lemma ContainsIff(s: string, pat: string)
    ensures Contains(s, pat) <==> exists k :: OccursAt(s, pat, k)
  {
    if !Contains(s, pat) {
      assert forall k :: 0 <= k ==> !OccursAt(s, pat, k);
    }
  }

  /** `sep.join(parts)` */
  function Join(sep: string, parts: seq<string>): (r: string)
    ensures parts == [] ==> r == []
    ensures |parts| == 1 ==> r == parts[0]
  {
    if parts == [] then []
    else if |parts| == 1 then parts[0]
    else parts[0] + sep + Join(sep, parts[1..])
  }

  /** `str(n)` for a natural number: its decimal digits. */
  function NatToString(n: nat): (r: string)
    ensures |r| > 0
    ensures forall i :: 0 <= i < |r| ==> '0' <= r[i] <= '9'
    decreases n
  {
    if n < 10 then [('0' as int + n) as char]
    else NatToString(n / 10) + [('0' as int + n % 10) as char]
  }
}
