/**
 * The string operations the core relies on, as JavaScript defines them:
 * `String.prototype.trim`, `toLowerCase` (ASCII letters), `replace` with a
 * string pattern, and truthiness of a possibly-undefined string.
 */
module Text {
  import opened Wrappers

  /** The WhiteSpace and LineTerminator code points that `trim` removes. */
  predicate IsJsSpace(c: char) {
    || c == '\t' || c == '\n' || c == '\U{000B}' || c == '\U{000C}' || c == '\r' || c == ' '
    || c == '\U{00A0}' || c == '\U{1680}' || ('\U{2000}' <= c <= '\U{200A}')
    || c == '\U{2028}' || c == '\U{2029}' || c == '\U{202F}' || c == '\U{205F}'
    || c == '\U{3000}' || c == '\U{FEFF}'
  }

  predicate AllSpace(s: string) {
    forall i :: 0 <= i < |s| ==> IsJsSpace(s[i])
  }

  /** The first index at or after `i` that is not white space (or `|s|`). */
  function StartFrom(s: string, i: nat): (k: nat)
    requires i <= |s|
    ensures i <= k <= |s|
    ensures forall j :: i <= j < k ==> IsJsSpace(s[j])
    ensures k < |s| ==> !IsJsSpace(s[k])
    decreases |s| - i
  {
    if i < |s| && IsJsSpace(s[i]) then StartFrom(s, i + 1) else i
  }

  /** The end of `s[lo..j]` once its trailing white space is cut. */
  function EndFrom(s: string, lo: nat, j: nat): (k: nat)
    requires lo <= j <= |s|
    ensures lo <= k <= j
    ensures forall m :: k <= m < j ==> IsJsSpace(s[m])
    ensures lo < k ==> !IsJsSpace(s[k - 1])
    decreases j - lo
  {
    if lo < j && IsJsSpace(s[j - 1]) then EndFrom(s, lo, j - 1) else j
  }

  /** `s.trim()`: a string that neither starts nor ends with white space. */
  function Trim(s: string): (r: string)
    ensures |r| <= |s|
    ensures IsTrimmed(r)
  {
    var lo := StartFrom(s, 0);
    var hi := EndFrom(s, lo, |s|);
    s[lo..hi]
  }

  /** Neither starts nor ends with white space. */
  predicate IsTrimmed(s: string) {
    s != [] ==> !IsJsSpace(s[0]) && !IsJsSpace(s[|s| - 1])
  }

  /** What `trim` keeps is a slice of its input: all that was cut is white space. */
  lemma TrimSlice(s: string) returns (k: nat)
    ensures k + |Trim(s)| <= |s| && Trim(s) == s[k..k + |Trim(s)|]
    ensures AllSpace(s[..k]) && AllSpace(s[k + |Trim(s)|..])
  {
    k := StartFrom(s, 0);
    var hi := EndFrom(s, k, |s|);
    assert Trim(s) == s[k..hi];
    assert forall i :: 0 <= i < k ==> s[..k][i] == s[i];
    assert forall i :: 0 <= i < |s| - hi ==> s[hi..][i] == s[hi + i];
  }

  lemma TrimOfTrimmed(s: string)
    requires IsTrimmed(s)
    ensures Trim(s) == s
  {
    if s != [] {
      assert StartFrom(s, 0) == 0;
      assert EndFrom(s, 0, |s|) == |s|;
    }
  }

  /** `s.trim() === ""` holds exactly when every character of `s` is white space. */
  lemma TrimBlankIff(s: string)
    ensures Trim(s) == [] <==> AllSpace(s)
  {
    var lo := StartFrom(s, 0);
    var hi := EndFrom(s, lo, |s|);
    assert AllSpace(s) ==> lo == |s|;
    assert hi == lo ==> forall i :: 0 <= i < |s| ==> IsJsSpace(s[i]);
  }

  lemma TrimIdempotent(s: string)
    ensures Trim(Trim(s)) == Trim(s)
  {
    TrimOfTrimmed(Trim(s));
  }

  function LowerChar(c: char): char {
    if 'A' <= c <= 'Z' then (c as int - 'A' as int + 'a' as int) as char else c
  }

  /** `s.toLowerCase()` on the ASCII letters; every other character is kept. */
  function Lower(s: string): (r: string)
    ensures |r| == |s|
    ensures NoUpper(r)
    ensures forall i :: 0 <= i < |s| && !('A' <= s[i] <= 'Z') ==> r[i] == s[i]
    ensures forall i :: 0 <= i < |s| && 'A' <= s[i] <= 'Z' ==> r[i] as int == s[i] as int + CaseOffset
  {
    seq(|s|, i requires 0 <= i < |s| => LowerChar(s[i]))
  }

  /** How far each lower-case ASCII letter sits above its capital. */
  const CaseOffset: int := 'a' as int - 'A' as int

  predicate NoUpper(s: string) {
    forall i :: 0 <= i < |s| ==> !('A' <= s[i] <= 'Z')
  }

  /** Two characters that are equal, or the same ASCII letter in the two cases. */
  predicate SameIgnoringCase(c: char, d: char) {
    || c == d
    || ('A' <= c <= 'Z' && d as int == c as int + CaseOffset)
    || ('A' <= d <= 'Z' && c as int == d as int + CaseOffset)
  }

  /** Two strings that agree position by position up to ASCII case. */
  predicate EqualIgnoringCase(s: string, t: string) {
    |s| == |t| && forall i :: 0 <= i < |s| ==> SameIgnoringCase(s[i], t[i])
  }

  lemma LowerCharIgnoresCase(c: char, d: char)
    ensures LowerChar(c) == LowerChar(d) <==> SameIgnoringCase(c, d)
  {
  }

  /**
   * `toLowerCase` identifies exactly the strings that agree up to ASCII case:
   * this is what makes the username comparisons of the store case-blind.
   */
  lemma LowerIgnoresCase(s: string, t: string)
    ensures Lower(s) == Lower(t) <==> EqualIgnoringCase(s, t)
  {
    if EqualIgnoringCase(s, t) {
      forall i | 0 <= i < |s| ensures Lower(s)[i] == Lower(t)[i] {
        LowerCharIgnoresCase(s[i], t[i]);
      }
    }
    if Lower(s) == Lower(t) {
      forall i | 0 <= i < |s| ensures SameIgnoringCase(s[i], t[i]) {
        assert Lower(s)[i] == Lower(t)[i];
        LowerCharIgnoresCase(s[i], t[i]);
      }
    }
  }

  lemma LowerOfNoUpper(s: string)
    requires NoUpper(s)
    ensures Lower(s) == s
  {
  }

  /** What the schema's `lowercase: true, trim: true` setters make of a value. */
  function Normalize(s: string): string {
    Trim(Lower(s))
  }

  /** A value as the schema's `lowercase` and `trim` setters leave it. */
  predicate IsNormalized(s: string) {
    NoUpper(s) && IsTrimmed(s)
  }

  /** A trimmed string keeps the property of having no upper-case letter. */
  lemma TrimKeepsNoUpper(x: string)
    requires NoUpper(x)
    ensures NoUpper(Trim(x))
  {
    var r := Trim(x);
    var k := TrimSlice(x);
    forall i | 0 <= i < |r| ensures !('A' <= r[i] <= 'Z') {
      assert r[i] == x[k + i];
    }
  }

  /** The setters leave a normalized value, and change nothing in one. */
  lemma {:induction false} NormalizeNormalizes(s: string)
    ensures IsNormalized(Normalize(s))
    ensures IsNormalized(s) ==> Normalize(s) == s
  {
    var x := Lower(s);
    assert NoUpper(x);
    TrimKeepsNoUpper(x);
    if IsNormalized(s) {
      LowerOfNoUpper(s);
      TrimOfTrimmed(s);
    }
  }

  /** Storing a normalized value and normalizing it again changes nothing. */
  lemma NormalizeIdempotent(s: string)
    ensures Normalize(Normalize(s)) == Normalize(s)
  {
    NormalizeNormalizes(s);
    NormalizeNormalizes(Normalize(s));
  }

  lemma LowerIdempotent(s: string)
    ensures Lower(Lower(s)) == Lower(s)
  {
    var x := Lower(s);
    forall i | 0 <= i < |s| ensures Lower(x)[i] == x[i] {
      assert x[i] == LowerChar(s[i]);
    }
  }

  /** Also `toLowerCase` before the setters changes nothing. */
  lemma LowerThenNormalize(s: string)
    ensures Normalize(Lower(s)) == Normalize(s)
  {
    LowerIdempotent(s);
  }

  /** Lower-casing moves no white space. */
  lemma LowerKeepsSpace(s: string)
    ensures AllSpace(Lower(s)) <==> AllSpace(s)
  {
    var x := Lower(s);
    forall i | 0 <= i < |s| ensures IsJsSpace(x[i]) <==> IsJsSpace(s[i]) {
      assert x[i] == LowerChar(s[i]);
    }
  }

  /** The setters store the same value for two inputs that differ only in ASCII case. */
  lemma NormalizeIgnoresCase(s: string, t: string)
    requires EqualIgnoringCase(s, t)
    ensures Normalize(s) == Normalize(t)
  {
    LowerIgnoresCase(s, t);
  }

  /** The setters blank a value exactly when `trim` alone would. */
  lemma NormalizeBlankIff(s: string)
    ensures Normalize(s) == "" <==> Trim(s) == ""
  {
    LowerKeepsSpace(s);
    TrimBlankIff(Lower(s));
    TrimBlankIff(s);
  }

  /** A string is truthy in JavaScript when it is defined and not empty. */
  predicate Truthy(v: Option<string>) {
    v.Some? && v.value != ""
  }

  predicate OccursAt(s: string, pat: string, i: nat) {
    i + |pat| <= |s| && s[i..i + |pat|] == pat
  }

  /** The first index at or after `from` where `pat` occurs in `s`. */
  function IndexOf(s: string, pat: string, from: nat): (r: Option<nat>)
    ensures r.Some? ==> from <= r.value && OccursAt(s, pat, r.value)
    ensures r.Some? ==> forall j: nat :: from <= j < r.value ==> !OccursAt(s, pat, j)
    ensures r.None? ==> forall j: nat :: from <= j ==> !OccursAt(s, pat, j)
    decreases |s| - from
  {
    if from + |pat| > |s| then None
    else if s[from..from + |pat|] == pat then Some(from)
    else IndexOf(s, pat, from + 1)
  }

  /** `s.replace(pat, repl)` with a string pattern: only the first occurrence is replaced. */
  function ReplaceFirst(s: string, pat: string, repl: string): (r: string)
    ensures (forall j: nat :: !OccursAt(s, pat, j)) ==> r == s
    ensures forall i: nat :: OccursAt(s, pat, i) && (forall j: nat :: j < i ==> !OccursAt(s, pat, j))
              ==> r == s[..i] + repl + s[i + |pat|..]
  {
    match IndexOf(s, pat, 0)
    case None => s
    case Some(i) => s[..i] + repl + s[i + |pat|..]
  }
}
