/** String helpers the components rely on: decimal rendering of numbers, the
    `mm:ss` clock, `String.prototype.trim`, ASCII lower-casing and `includes`. */
module Text {
  import opened Wrappers

  // ---------------------------------------------------------------------------
  // Decimal digits

  predicate IsDigit(c: char) { '0' <= c <= '9' }

  function DigitChar(d: nat): (c: char)
    requires d < 10
    ensures IsDigit(c)
  {
    (48 + d) as char
  }

  function DigitValue(c: char): nat
  {
    if IsDigit(c) then c as int - 48 else 0
  }

  /** The decimal rendering JavaScript produces for a non-negative integer (`n.toString()`). */
  function NatToString(n: nat): (s: string)
    ensures 1 <= |s|
    ensures forall i :: 0 <= i < |s| ==> IsDigit(s[i])
    ensures n < 10 <==> |s| == 1
    ensures s[0] == '0' <==> n == 0
  {
    if n < 10 then [DigitChar(n)] else NatToString(n / 10) + [DigitChar(n % 10)]
  }

  /** Reads a string of decimal digits back as a number. */
  function ParseNat(s: string): nat
  {
    if s == [] then 0 else 10 * ParseNat(s[..|s| - 1]) + DigitValue(s[|s| - 1])
  }

  /** Rendering a number and reading it back gives the number again. */
  lemma {:induction false} ParseNatToString(n: nat)
    ensures ParseNat(NatToString(n)) == n
  {
    var s := NatToString(n);
    if n >= 10 {
      assert s[..|s| - 1] == NatToString(n / 10);
      ParseNatToString(n / 10);
    }
  }

  /** Distinct numbers have distinct renderings. */
  lemma NatToStringInjective(m: nat, n: nat)
    requires NatToString(m) == NatToString(n)
    ensures m == n
  {
    ParseNatToString(m);
    ParseNatToString(n);
  }

  // ---------------------------------------------------------------------------
  // The clock shown while recording and during playback

  /** `seconds.toString().padStart(2, '0')`. */
  function Pad2(n: nat): (s: string)
    requires n < 100
    ensures |s| == 2 && ParseNat(s) == n
    ensures forall i :: 0 <= i < |s| ==> IsDigit(s[i])
  {
    ParseNatToString(n);
    var d := NatToString(n);
    if |d| < 2 then
      assert ParseNat("0" + d) == 10 * ParseNat("0") + DigitValue(d[0]);
      "0" + d
    else d
  }

  /** `formatTime` for a whole, non-negative number of seconds: minutes, a colon, and the
      seconds within the minute padded to two digits. */
  function FormatTime(t: nat): (s: string)
    ensures |s| >= 4 && s[|s| - 3] == ':'
    ensures forall i :: 0 <= i < |s| && i != |s| - 3 ==> IsDigit(s[i])
    ensures ParseNat(s[|s| - 2..]) < 60
    ensures |s| > 4 ==> s[0] != '0'
  {
    var m := NatToString(t / 60);
    var sec := Pad2(t % 60);
    assert (m + ":" + sec)[|m + ":" + sec| - 2..] == sec;
    m + ":" + sec
  }

  /** Reads a clock string `m:ss` back as a number of seconds. */
  function ParseTime(s: string): nat
  {
    if |s| < 3 then 0 else 60 * ParseNat(s[..|s| - 3]) + ParseNat(s[|s| - 2..])
  }

  /** The clock loses nothing: the seconds it shows are exactly the seconds counted. */
  lemma FormatTimeRoundTrip(t: nat)
    ensures ParseTime(FormatTime(t)) == t
  {
    var m := NatToString(t / 60);
    var sec := Pad2(t % 60);
    var s := m + ":" + sec;
    assert s[..|s| - 3] == m;
    assert s[|s| - 2..] == sec;
    ParseNatToString(t / 60);
  }

  // ---------------------------------------------------------------------------
  // String.prototype.trim

  /** The white space and line terminators that ECMAScript's `trim` removes. */
  predicate IsWhite(c: char)
  {
    c == '\t' || c == '\n' || c == '\U{000B}' || c == '\U{000C}' || c == '\r' || c == ' '
    || c == '\U{00A0}' || c == '\U{1680}' || ('\U{2000}' <= c <= '\U{200A}')
    || c == '\U{2028}' || c == '\U{2029}' || c == '\U{202F}' || c == '\U{205F}'
    || c == '\U{3000}' || c == '\U{FEFF}'
  }

  /** The first position of `s`, from `i` on, that does not hold white space. */
  function SkipWhite(s: string, i: nat): (k: nat)
    requires i <= |s|
    ensures i <= k <= |s|
    ensures forall m :: i <= m < k ==> IsWhite(s[m])
    ensures k == |s| || !IsWhite(s[k])
    decreases |s| - i
  {
    if i < |s| && IsWhite(s[i]) then SkipWhite(s, i + 1) else i
  }

  /** The end of `s[lo..j]` once white space at its end is dropped. */
  function SkipWhiteBack(s: string, lo: nat, j: nat): (k: nat)
    requires lo <= j <= |s|
    ensures lo <= k <= j
    ensures forall m :: k <= m < j ==> IsWhite(s[m])
    ensures k == lo || !IsWhite(s[k - 1])
    decreases j
  {
    if lo < j && IsWhite(s[j - 1]) then SkipWhiteBack(s, lo, j - 1) else j
  }

  /** `s[i..j]` is what remains of `s` when only white space is cut off at both ends. */
  predicate TrimmedSlice(s: string, i: nat, j: nat)
  {
    && i <= j <= |s|
    && (forall k :: 0 <= k < i ==> IsWhite(s[k]))
    && (forall k :: j <= k < |s| ==> IsWhite(s[k]))
  }

  /** `s.trim()`: the slice of `s` left after dropping white space at both ends. */
  function Trim(s: string): (r: string)
    ensures r == [] || (!IsWhite(r[0]) && !IsWhite(r[|r| - 1]))
    ensures exists i: nat, j: nat :: TrimmedSlice(s, i, j) && r == s[i..j]
  {
    var i := SkipWhite(s, 0);
    var j := SkipWhiteBack(s, i, |s|);
    assert TrimmedSlice(s, i, j);
    s[i..j]
  }

  /** Trimming twice is trimming once. */
  lemma TrimIdempotent(s: string)
    ensures Trim(Trim(s)) == Trim(s)
  {
    var r := Trim(s);
    assert SkipWhite(r, 0) == 0;
    assert SkipWhiteBack(r, 0, |r|) == |r|;
    assert r[0..|r|] == r;
  }

  // ---------------------------------------------------------------------------
  // Case folding and substring search, as the search box uses them

  predicate IsUpper(c: char) { 'A' <= c <= 'Z' }

  /** `toLowerCase`, restricted to the ASCII letters: no capital is left, and every other
      character stays where it was. */
  function ToLower(s: string): (r: string)
    ensures |r| == |s|
    ensures forall i :: 0 <= i < |r| ==> !IsUpper(r[i])
    ensures forall i :: 0 <= i < |s| && !IsUpper(s[i]) ==> r[i] == s[i]
    ensures forall i :: 0 <= i < |s| && IsUpper(s[i]) ==> r[i] as int == s[i] as int + 32
  {
    seq(|s|, i requires 0 <= i < |s| => if IsUpper(s[i]) then (s[i] as int + 32) as char else s[i])
  }

  /** A string without capitals is its own lower case. */
  lemma ToLowerFixesLower(s: string)
    requires forall i :: 0 <= i < |s| ==> !IsUpper(s[i])
    ensures ToLower(s) == s
  {
    assert forall i :: 0 <= i < |s| ==> ToLower(s)[i] == s[i];
  }

  /** Lower-casing twice is lower-casing once. */
  lemma ToLowerIdempotent(s: string)
    ensures ToLower(ToLower(s)) == ToLower(s)
  {
    ToLowerFixesLower(ToLower(s));
  }

  /** `s.includes(t)`: `t` occurs somewhere in `s` as a contiguous piece. */
  predicate Contains(s: string, t: string)
  {
    exists i :: 0 <= i <= |s| - |t| && OccursAt(s, t, i)
  }

  /** `t` occurs in `s` starting at position `i`. */
  predicate OccursAt(s: string, t: string, i: int)
  {
    0 <= i <= |s| - |t| && s[i..i + |t|] == t
  }

  /** Every string includes the empty string. */
  lemma ContainsEmpty(s: string)
    ensures Contains(s, "")
  {
    assert OccursAt(s, "", 0);
  }

  // ---------------------------------------------------------------------------
  // Committing an edited title

  /** The rule both title editors apply when editing ends: report the trimmed draft, but
      only when it differs from the current title. */
  function CommitTitle(draft: string, current: string): (r: Option<string>)
    ensures r.Some? <==> Trim(draft) != current
    ensures r.Some? ==> r.value == Trim(draft)
  {
    var t := Trim(draft);
    if t != current then Some(t) else None
  }

  /** Once a title has been committed, ending a later edit whose draft trims to the same text
      (the untrimmed draft the editor keeps, say) reports nothing. */
  lemma CommitTitleStable(draft: string, later: string, current: string)
    requires CommitTitle(draft, current).Some?
    requires Trim(later) == Trim(draft)
    ensures CommitTitle(later, CommitTitle(draft, current).value).None?
  {
  }
}
