/** The JavaScript string operations the core relies on:
    `String.prototype.trim`, `String.prototype.toLowerCase` and
    `String.prototype.replace` with a string pattern. */
module JsString {
  import opened Wrappers

  /** JavaScript truthiness of a possibly undefined string. */
  predicate Truthy(v: Option<string>) {
    v.Some? && v.value != ""
  }

  /** The characters `trim` removes: the ECMAScript WhiteSpace set
      (TAB, VT, FF, SP, NBSP, ZWNBSP and the Zs category) and the
      LineTerminator set (LF, CR, LS, PS). */
  predicate IsWhiteSpace(c: char) {
    var n := c as int;
    n == 0x09 || n == 0x0A || n == 0x0B || n == 0x0C || n == 0x0D ||
    n == 0x20 || n == 0xA0 || n == 0x1680 || (0x2000 <= n <= 0x200A) ||
    n == 0x2028 || n == 0x2029 || n == 0x202F || n == 0x205F ||
    n == 0x3000 || n == 0xFEFF
  }

  ghost predicate AllWhiteSpace(s: string) {
    forall i :: 0 <= i < |s| ==> IsWhiteSpace(s[i])
  }

  /** Number of white-space characters at the start of `s`. */
  function LeadingWhiteSpace(s: string): (k: nat)
    ensures k <= |s|
  {
    if |s| == 0 || !IsWhiteSpace(s[0]) then 0
    else 1 + LeadingWhiteSpace(s[1..])
  }

  /** The leading run is all white space and stops at the first other
      character. */
  lemma {:induction false} LeadingWhiteSpaceSpan(s: string)
    ensures forall i :: 0 <= i < LeadingWhiteSpace(s) ==> IsWhiteSpace(s[i])
    ensures LeadingWhiteSpace(s) < |s| ==> !IsWhiteSpace(s[LeadingWhiteSpace(s)])
  {
    if |s| > 0 && IsWhiteSpace(s[0]) {
      LeadingWhiteSpaceSpan(s[1..]);
      forall i | 0 < i < LeadingWhiteSpace(s) ensures IsWhiteSpace(s[i]) {
        assert s[i] == s[1..][i - 1];
      }
    }
  }

  /** Number of white-space characters at the end of `s`. */
  function TrailingWhiteSpace(s: string): (k: nat)
    ensures k <= |s|
  {
    if |s| == 0 || !IsWhiteSpace(s[|s| - 1]) then 0
    else 1 + TrailingWhiteSpace(s[..|s| - 1])
  }

  /** The trailing run is all white space and stops at the last other
      character. */
  lemma {:induction false} TrailingWhiteSpaceSpan(s: string)
    ensures forall i :: |s| - TrailingWhiteSpace(s) <= i < |s| ==> IsWhiteSpace(s[i])
    ensures TrailingWhiteSpace(s) < |s| ==> !IsWhiteSpace(s[|s| - 1 - TrailingWhiteSpace(s)])
  {
    if |s| > 0 && IsWhiteSpace(s[|s| - 1]) {
      var p := s[..|s| - 1];
      TrailingWhiteSpaceSpan(p);
      forall i | |s| - TrailingWhiteSpace(s) <= i < |s| - 1 ensures IsWhiteSpace(s[i]) {
        assert s[i] == p[i];
      }
      if TrailingWhiteSpace(s) < |s| {
        assert s[|s| - 1 - TrailingWhiteSpace(s)] == p[|p| - 1 - TrailingWhiteSpace(p)];
      }
    }
  }

  /** `s.trim()`: the slice of `s` left after removing white space at
      both ends. */
  function Trim(s: string): (r: string)
    ensures |r| <= |s|
  {
    var t := s[LeadingWhiteSpace(s)..];
    t[..|t| - TrailingWhiteSpace(t)]
  }

  /** What `trim` leaves neither starts nor ends with white space. */
  lemma TrimEnds(s: string)
    ensures var r := Trim(s); r == [] || (!IsWhiteSpace(r[0]) && !IsWhiteSpace(r[|r| - 1]))
  {
    var a := LeadingWhiteSpace(s);
    var t := s[a..];
    var b := TrailingWhiteSpace(t);
    var r := Trim(s);
    LeadingWhiteSpaceSpan(s);
    TrailingWhiteSpaceSpan(t);
    if r != [] {
      assert r[0] == t[0] == s[a];
      assert r[|r| - 1] == t[|t| - 1 - b];
    }
  }

  /** `trim` yields the empty string exactly when every character is
      white space. */
  lemma TrimEmptyIff(s: string)
    ensures Trim(s) == [] <==> AllWhiteSpace(s)
  {
    var a := LeadingWhiteSpace(s);
    var t := s[a..];
    var b := TrailingWhiteSpace(t);
    LeadingWhiteSpaceSpan(s);
    TrailingWhiteSpaceSpan(t);
    if a < |s| {
      assert t[0] == s[a] && !IsWhiteSpace(t[0]);
      assert b < |t|;
    }
  }

  /** `trim` keeps a slice of the input, dropping only white space. */
  lemma TrimIsSlice(s: string)
    ensures exists a, b :: 0 <= a <= b <= |s| && Trim(s) == s[a..b] &&
                          (forall i :: 0 <= i < a ==> IsWhiteSpace(s[i])) &&
                          (forall i :: b <= i < |s| ==> IsWhiteSpace(s[i]))
  {
    var a := LeadingWhiteSpace(s);
    var t := s[a..];
    var b := a + |t| - TrailingWhiteSpace(t);
    LeadingWhiteSpaceSpan(s);
    TrailingWhiteSpaceSpan(t);
    assert Trim(s) == s[a..b];
    forall i | b <= i < |s| ensures IsWhiteSpace(s[i]) {
      assert s[i] == t[i - a];
    }
  }

  /** Trimming twice is trimming once. */
  lemma TrimIdempotent(s: string)
    ensures Trim(Trim(s)) == Trim(s)
  {
    var r := Trim(s);
    TrimEnds(s);
    if r != [] {
      assert LeadingWhiteSpace(r) == 0;
      assert TrailingWhiteSpace(r) == 0;
    }
  }

  /** `c.toLowerCase()` for one character; only A-Z are mapped. */
  function LowerChar(c: char): char {
    if 'A' <= c <= 'Z' then (c as int + 32) as char else c
  }

  /** `s.toLowerCase()`, restricted to the ASCII letters. */
  function ToLower(s: string): (r: string)
    ensures |r| == |s|
    ensures forall i :: 0 <= i < |s| ==> r[i] == LowerChar(s[i])
  {
    seq(|s|, i requires 0 <= i < |s| => LowerChar(s[i]))
  }

  lemma ToLowerIdempotent(s: string)
    ensures ToLower(ToLower(s)) == ToLower(s)
  {
  }

  lemma ToLowerSuffix(s: string, a: nat)
    requires a <= |s|
    ensures ToLower(s[a..]) == ToLower(s)[a..]
  {
  }

  lemma ToLowerPrefix(s: string, n: nat)
    requires n <= |s|
    ensures ToLower(s[..n]) == ToLower(s)[..n]
  {
  }

  lemma {:induction false} LeadingWhiteSpaceOfLower(s: string)
    ensures LeadingWhiteSpace(ToLower(s)) == LeadingWhiteSpace(s)
  {
    if |s| > 0 && IsWhiteSpace(s[0]) {
      assert ToLower(s)[1..] == ToLower(s[1..]);
      LeadingWhiteSpaceOfLower(s[1..]);
    }
  }

  lemma {:induction false} TrailingWhiteSpaceOfLower(s: string)
    ensures TrailingWhiteSpace(ToLower(s)) == TrailingWhiteSpace(s)
  {
    if |s| > 0 && IsWhiteSpace(s[|s| - 1]) {
      assert ToLower(s)[..|s| - 1] == ToLower(s[..|s| - 1]);
      TrailingWhiteSpaceOfLower(s[..|s| - 1]);
    }
  }

  /** Lower-casing and trimming commute, so the order in which the schema
      applies its `lowercase` and `trim` setters does not matter. */
  lemma TrimLowerCommute(s: string)
    ensures Trim(ToLower(s)) == ToLower(Trim(s))
  {
    var a := LeadingWhiteSpace(s);
    var t := s[a..];
    var n := |t| - TrailingWhiteSpace(t);
    LeadingWhiteSpaceOfLower(s);
    ToLowerSuffix(s, a);
    TrailingWhiteSpaceOfLower(t);
    ToLowerPrefix(t, n);
  }

  /** Pattern `pat` occurs in `s` at index `j`. */
  predicate OccursAt(s: string, pat: string, j: nat) {
    j + |pat| <= |s| && s[j..j + |pat|] == pat
  }

  /** First index at or after `from` where `pat` occurs. */
  function IndexOfFrom(s: string, pat: string, from: nat): (r: Option<nat>)
    requires from <= |s|
    ensures r.Some? ==> from <= r.value && OccursAt(s, pat, r.value)
    ensures r.Some? ==> forall j :: from <= j < r.value ==> !OccursAt(s, pat, j)
    ensures r.None? ==> forall j :: from <= j <= |s| ==> !OccursAt(s, pat, j)
    decreases |s| - from
  {
    if OccursAt(s, pat, from) then Some(from)
    else if from == |s| then None
    else IndexOfFrom(s, pat, from + 1)
  }

  /** `s.indexOf(pat)`: the first occurrence of `pat` in `s`. */
  function IndexOf(s: string, pat: string): (r: Option<nat>)
    ensures r.Some? ==> OccursAt(s, pat, r.value)
    ensures r.Some? ==> forall j :: 0 <= j < r.value ==> !OccursAt(s, pat, j)
    ensures r.None? ==> forall j :: 0 <= j <= |s| ==> !OccursAt(s, pat, j)
  {
    IndexOfFrom(s, pat, 0)
  }

  /** `s.replace(pat, "")` for a string pattern: removes the FIRST
      occurrence of `pat` wherever it is, and leaves `s` alone when `pat`
      does not occur. */
  function RemoveFirst(s: string, pat: string): (r: string)
    ensures |r| == if IndexOf(s, pat).Some? then |s| - |pat| else |s|
  {
    match IndexOf(s, pat)
    case None => s
    case Some(i) => s[..i] + s[i + |pat|..]
  }

  /** A string that starts with the pattern loses exactly that prefix. */
  lemma RemoveFirstOfPrefix(pat: string, t: string)
    ensures RemoveFirst(pat + t, pat) == t
  {
    assert OccursAt(pat + t, pat, 0);
    var i := IndexOf(pat + t, pat);
    assert i == Some(0);
  }

  /** A string without the pattern is returned unchanged. */
  lemma RemoveFirstAbsent(s: string, pat: string)
    requires forall j :: 0 <= j <= |s| ==> !OccursAt(s, pat, j)
    ensures RemoveFirst(s, pat) == s
  {
  }

  /** When the pattern occurs, the result is the input with the first
      occurrence cut out. */
  lemma RemoveFirstCutsFirstOccurrence(s: string, pat: string, i: nat)
    requires OccursAt(s, pat, i)
    requires forall j :: 0 <= j < i ==> !OccursAt(s, pat, j)
    ensures RemoveFirst(s, pat) == s[..i] + s[i + |pat|..]
    ensures |RemoveFirst(s, pat)| == |s| - |pat|
  {
    var k := IndexOf(s, pat);
    assert k.Some? && k.value == i;
  }
}
