/**
 * The JavaScript string primitives the session layer relies on: the `\s` and
 * `\w` classes of its regular expressions, `trim`, `indexOf`, `includes`,
 * `split('\n')`, `toUpperCase` and the `||` fallback on optional strings.
 */
module JsText {
  import opened Wrappers

  /** A character of the `\s` class, which is also exactly what `trim` removes. */
  predicate IsSpace(c: char) {
    || c == '\t' || c == '\n' || c == '\U{000B}' || c == '\U{000C}' || c == '\r' || c == ' '
    || c == '\U{00A0}' || c == '\U{1680}' || ('\U{2000}' <= c <= '\U{200A}')
    || c == '\U{2028}' || c == '\U{2029}' || c == '\U{202F}' || c == '\U{205F}'
    || c == '\U{3000}' || c == '\U{FEFF}'
  }

  /** A character of the `\w` class (no `u` flag). */
  predicate IsWordChar(c: char) {
    ('a' <= c <= 'z') || ('A' <= c <= 'Z') || ('0' <= c <= '9') || c == '_'
  }

  predicate AllSpace(s: string) {
    forall i :: 0 <= i < |s| ==> IsSpace(s[i])
  }

  predicate AllWord(s: string) {
    forall i :: 0 <= i < |s| ==> IsWordChar(s[i])
  }

  predicate NoNewline(s: string) {
    forall i :: 0 <= i < |s| ==> s[i] != '\n'
  }

  /** Length of the longest all-space prefix of `s`. */
  function LeadingSpaces(s: string): (n: nat)
    ensures n <= |s|
    ensures forall i :: 0 <= i < n ==> IsSpace(s[i])
    ensures n < |s| ==> !IsSpace(s[n])
  {
    if |s| > 0 && IsSpace(s[0]) then 1 + LeadingSpaces(s[1..]) else 0
  }

  /** Length of the longest all-space suffix of `s`. */
  function TrailingSpaces(s: string): (n: nat)
    ensures n <= |s|
    ensures forall i :: |s| - n <= i < |s| ==> IsSpace(s[i])
    ensures n < |s| ==> !IsSpace(s[|s| - n - 1])
  {
    if |s| > 0 && IsSpace(s[|s| - 1]) then 1 + TrailingSpaces(s[..|s| - 1]) else 0
  }

  /** Length of the longest prefix of `s` made of `\w` characters. */
  function WordRun(s: string): (n: nat)
    ensures n <= |s|
    ensures forall i :: 0 <= i < n ==> IsWordChar(s[i])
    ensures n < |s| ==> !IsWordChar(s[n])
  {
    if |s| > 0 && IsWordChar(s[0]) then 1 + WordRun(s[1..]) else 0
  }

  lemma LeadingRunSpace(s: string)
    ensures AllSpace(s[..LeadingSpaces(s)])
  {
    var n := LeadingSpaces(s);
    assert forall i :: 0 <= i < n ==> s[..n][i] == s[i];
  }

  lemma LeadingSpacesExact(s: string, k: nat)
    requires k <= |s|
    requires forall i :: 0 <= i < k ==> IsSpace(s[i])
    requires k < |s| ==> !IsSpace(s[k])
    ensures LeadingSpaces(s) == k
  {
  }

  lemma TrailingSpacesExact(s: string, k: nat)
    requires k <= |s|
    requires forall i :: |s| - k <= i < |s| ==> IsSpace(s[i])
    requires k < |s| ==> !IsSpace(s[|s| - k - 1])
    ensures TrailingSpaces(s) == k
  {
  }

  lemma WordRunExact(s: string, k: nat)
    requires k <= |s|
    requires forall i :: 0 <= i < k ==> IsWordChar(s[i])
    requires k < |s| ==> !IsWordChar(s[k])
    ensures WordRun(s) == k
  {
  }

  function TrimStart(s: string): string {
    s[LeadingSpaces(s)..]
  }

  /**
   * `String.prototype.trim`: `s` without its maximal leading and trailing
   * runs of whitespace.
   */
  function Trim(s: string): (r: string)
    ensures
      var a := LeadingSpaces(s);
      && a + |r| <= |s|
      && r == s[a..a + |r|]
      && AllSpace(s[..a]) && AllSpace(s[a + |r|..])
      && (|r| > 0 ==> !IsSpace(r[0]) && !IsSpace(r[|r| - 1]))
  {
    var t := TrimStart(s);
    t[..|t| - TrailingSpaces(t)]
  }

  /** Whatever way `s` splits into space, a core with non-space ends, and space, `Trim` returns that core. */
  lemma TrimUnique(s: string, a: nat, b: nat)
    requires a <= b <= |s|
    requires AllSpace(s[..a]) && AllSpace(s[b..])
    requires a < b ==> !IsSpace(s[a]) && !IsSpace(s[b - 1])
    ensures Trim(s) == s[a..b]
  {
    if a < b {
      assert forall i :: 0 <= i < a ==> IsSpace(s[i]) by {
        forall i | 0 <= i < a ensures IsSpace(s[i]) { assert s[i] == s[..a][i]; }
      }
      LeadingSpacesExact(s, a);
      var t := s[a..];
      assert forall i :: |t| - (|s| - b) <= i < |t| ==> IsSpace(t[i]) by {
        forall i | |t| - (|s| - b) <= i < |t| ensures IsSpace(t[i]) {
          assert t[i] == s[b..][i - (b - a)];
        }
      }
      TrailingSpacesExact(t, |s| - b);
    } else {
      assert AllSpace(s) by {
        forall i | 0 <= i < |s| ensures IsSpace(s[i]) {
          if i < a { assert s[i] == s[..a][i]; } else { assert s[i] == s[b..][i - b]; }
        }
      }
      LeadingSpacesExact(s, |s|);
    }
  }

  /** A core with non-space ends between two runs of space is what `trim` returns. */
  lemma TrimCore(l: string, t: string, r: string)
    requires AllSpace(l) && AllSpace(r)
    requires |t| > 0 ==> !IsSpace(t[0]) && !IsSpace(t[|t| - 1])
    ensures Trim(l + t + r) == t
  {
    var s := l + t + r;
    assert s[..|l|] == l;
    assert s[|l| + |t|..] == r;
    assert s[|l|..|l| + |t|] == t;
    if |t| > 0 {
      assert s[|l|] == t[0];
      assert s[|l| + |t| - 1] == t[|t| - 1];
    }
    TrimUnique(s, |l|, |l| + |t|);
  }

  /** Padding a string with whitespace on either side does not change what `trim` returns. */
  lemma TrimPadded(l: string, x: string, r: string)
    requires AllSpace(l) && AllSpace(r)
    ensures Trim(l + x + r) == Trim(x)
  {
    var xl, xr := TrimSplit(x);
    var t := Trim(x);
    AllSpaceConcat(l, xl);
    AllSpaceConcat(xr, r);
    RegroupMiddle(l, xl, t, xr, r);
    assert l + x + r == (l + xl) + t + (xr + r);
    TrimCore(l + xl, t, xr + r);
  }

  lemma TrimPaddedRight(x: string, r: string)
    requires AllSpace(r)
    ensures Trim(x + r) == Trim(x)
  {
    TrimPadded("", x, r);
    assert "" + x + r == x + r;
  }

  lemma TrimPaddedLeft(l: string, x: string)
    requires AllSpace(l)
    ensures Trim(l + x) == Trim(x)
  {
    TrimPadded(l, x, "");
    assert l + x + "" == l + x;
  }

  lemma AllSpaceConcat(a: string, b: string)
    requires AllSpace(a) && AllSpace(b)
    ensures AllSpace(a + b)
  {
    forall i | 0 <= i < |a + b| ensures IsSpace((a + b)[i]) {
      if i < |a| { assert (a + b)[i] == a[i]; } else { assert (a + b)[i] == b[i - |a|]; }
    }
  }

  lemma TrimStartPadded(l: string, x: string)
    requires AllSpace(l)
    requires |x| > 0 ==> !IsSpace(x[0])
    ensures TrimStart(l + x) == x
  {
    var s := l + x;
    forall i | 0 <= i < |l| ensures IsSpace(s[i]) { assert s[i] == l[i]; }
    if |x| > 0 { assert s[|l|] == x[0]; }
    LeadingSpacesExact(s, |l|);
  }

  /** `s` is its leading space, its trim, and its trailing space, in that order. */
  lemma TrimSplit(s: string) returns (l: string, r: string)
    ensures s == l + Trim(s) + r && AllSpace(l) && AllSpace(r)
  {
    var a := LeadingSpaces(s);
    var t := Trim(s);
    l := s[..a];
    r := s[a + |t|..];
    assert s == l + s[a..a + |t|] + r;
  }

  lemma NoNewlineSplit(a: string, b: string, c: string)
    requires NoNewline(a + b + c)
    ensures NoNewline(a) && NoNewline(b) && NoNewline(c)
  {
    var s := a + b + c;
    forall i | 0 <= i < |a| ensures a[i] != '\n' { assert a[i] == s[i]; }
    forall i | 0 <= i < |b| ensures b[i] != '\n' { assert b[i] == s[|a| + i]; }
    forall i | 0 <= i < |c| ensures c[i] != '\n' { assert c[i] == s[|a| + |b| + i]; }
  }

  lemma RegroupMiddle(a: string, b: string, c: string, d: string, e: string)
    ensures a + b + c + d + e == a + (b + c + d) + e
  {
  }

  lemma RegroupTail(a: string, b: string, c: string, d: string, e: string)
    ensures a + b + c + d + e == a + (b + (c + d + e))
  {
  }

  /** A string with non-space ends is its own trim. */
  lemma TrimNoop(s: string)
    requires |s| > 0 ==> !IsSpace(s[0]) && !IsSpace(s[|s| - 1])
    ensures Trim(s) == s
  {
    TrimUnique(s, 0, |s|);
  }

  /** An all-space string trims to the empty string. */
  lemma TrimAllSpace(s: string)
    requires AllSpace(s)
    ensures Trim(s) == ""
  {
    TrimUnique(s, |s|, |s|);
  }

  /** `pat` occurs in `s` at position `i`. */
  predicate OccursAt(s: string, pat: string, i: int) {
    0 <= i && i + |pat| <= |s| && s[i..i + |pat|] == pat
  }

  /** `s.indexOf(pat, i)`: the first position at or after `i` where `pat` occurs. */
  function IndexFrom(s: string, pat: string, i: nat): (r: Option<nat>)
    requires i <= |s|
    decreases |s| - i
    ensures r.Some? ==> i <= r.value && OccursAt(s, pat, r.value)
    ensures r.Some? ==> forall j :: i <= j < r.value ==> !OccursAt(s, pat, j)
    ensures r.None? ==> forall j :: i <= j ==> !OccursAt(s, pat, j)
  {
    if i + |pat| > |s| then None
    else if s[i..i + |pat|] == pat then Some(i)
    else IndexFrom(s, pat, i + 1)
  }

  /** `s.indexOf(pat)`, with `None` for JavaScript's -1. */
  function IndexOf(s: string, pat: string): Option<nat> {
    IndexFrom(s, pat, 0)
  }

  /** `s.includes(pat)`. */
  predicate Includes(s: string, pat: string) {
    IndexOf(s, pat).Some?
  }

  lemma IncludesIff(s: string, pat: string)
    ensures Includes(s, pat) <==> exists i :: OccursAt(s, pat, i)
  {
  }

  /** `s.split('\n')`. */
  function SplitLines(s: string): (r: seq<string>)
    ensures |r| >= 1
    ensures forall i :: 0 <= i < |r| ==> NoNewline(r[i])
  {
    if |s| == 0 then [""]
    else
      var rest := SplitLines(s[1..]);
      if s[0] == '\n' then [""] + rest
      else [[s[0]] + rest[0]] + rest[1..]
  }

  /** `lines.join('\n')`. */
  function JoinLines(lines: seq<string>): string
    requires |lines| >= 1
  {
    if |lines| == 1 then lines[0] else lines[0] + "\n" + JoinLines(lines[1..])
  }

  /** Splitting on newlines loses nothing: joining the pieces back gives the original text. */
  lemma {:induction false} JoinSplitLines(s: string)
    ensures JoinLines(SplitLines(s)) == s
  {
    if |s| > 0 {
      var rest := SplitLines(s[1..]);
      JoinSplitLines(s[1..]);
      if s[0] == '\n' {
        assert SplitLines(s)[1..] == rest;
      } else {
        var r := SplitLines(s);
        if |rest| == 1 {
          assert r == [[s[0]] + rest[0]];
        } else {
          assert r[1..] == rest[1..];
          assert JoinLines(rest) == rest[0] + "\n" + JoinLines(rest[1..]);
        }
      }
    }
  }

  /** Splitting joined newline-free lines gives the lines back. */
  lemma {:induction false} SplitJoinLines(lines: seq<string>)
    requires |lines| >= 1
    requires forall i :: 0 <= i < |lines| ==> NoNewline(lines[i])
    ensures SplitLines(JoinLines(lines)) == lines
  {
    if |lines| == 1 {
      SplitNoNewline(lines[0]);
    } else {
      SplitJoinLines(lines[1..]);
      SplitPrefix(lines[0], JoinLines(lines[1..]));
    }
  }

  lemma {:induction false} SplitNoNewline(s: string)
    requires NoNewline(s)
    ensures SplitLines(s) == [s]
  {
    if |s| > 0 {
      SplitNoNewline(s[1..]);
      assert [s[0]] + s[1..] == s;
    }
  }

  lemma {:induction false} SplitPrefix(a: string, b: string)
    requires NoNewline(a)
    ensures SplitLines(a + "\n" + b) == [a] + SplitLines(b)
  {
    if |a| == 0 {
      assert a + "\n" + b == "\n" + b;
      assert ("\n" + b)[1..] == b;
    } else {
      var s := a + "\n" + b;
      assert s[1..] == a[1..] + "\n" + b;
      SplitPrefix(a[1..], b);
      assert [a[0]] + a[1..] == a;
    }
  }

  /** ASCII upper-casing of one character. */
  function UpperChar(c: char): char {
    if 'a' <= c <= 'z' then (c as int - 32) as char else c
  }

  /** `s.toUpperCase()`, restricted to the ASCII letters. */
  function ToUpper(s: string): (r: string)
    ensures |r| == |s|
    ensures forall i :: 0 <= i < |s| ==> r[i] == UpperChar(s[i])
  {
    if |s| == 0 then "" else [UpperChar(s[0])] + ToUpper(s[1..])
  }

  /** JavaScript's truthiness of an optional string: present and not empty. */
  predicate Truthy(v: Option<string>) {
    v.Some? && v.value != ""
  }

  /** `v || fallback` for an optional string. */
  function OrElse(v: Option<string>, fallback: string): string {
    if Truthy(v) then v.value else fallback
  }
}
