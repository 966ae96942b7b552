/**
 * The handful of Python string operations the core relies on: `str.strip`,
 * `str.replace(old, "")`, `str.join`, `str(n)` for a natural number, the
 * `in` test on strings and `*` on a string.
 */
module Text {

  /** Python's `str.isspace` for one character. */
  predicate IsSpace(c: char) {
    c == ' ' || ('\t' <= c <= '\r') || ('\U{1c}' <= c <= '\U{1f}') ||
    c == '\U{85}' || c == '\U{a0}' || c == '\U{1680}' || ('\U{2000}' <= c <= '\U{200a}') ||
    c == '\U{2028}' || c == '\U{2029}' || c == '\U{202f}' || c == '\U{205f}' || c == '\U{3000}'
  }

  /** Every character of `s` is white space (Python: `not s.strip()`). */
  predicate IsBlank(s: string) {
    forall i :: 0 <= i < |s| ==> IsSpace(s[i])
  }

  /** How many white-space characters `s` starts with. */
  function LeadingSpace(s: string): (n: nat)
    ensures n <= |s|
    ensures forall i :: 0 <= i < n ==> IsSpace(s[i])
    ensures n < |s| ==> !IsSpace(s[n])
  {
    if |s| > 0 && IsSpace(s[0]) then
      var n := 1 + LeadingSpace(s[1..]);
      assert forall i :: 1 <= i < n ==> s[i] == s[1..][i - 1];
      n
    else 0
  }

  /** Where the white space that `s` ends with begins. */
  function TrailingSpace(s: string): (n: nat)
    ensures n <= |s|
    ensures forall i :: n <= i < |s| ==> IsSpace(s[i])
    ensures n > 0 ==> !IsSpace(s[n - 1])
  {
    if |s| > 0 && IsSpace(s[|s| - 1]) then
      var n := TrailingSpace(s[..|s| - 1]);
      assert forall i :: n <= i < |s| - 1 ==> s[i] == s[..|s| - 1][i];
      n
    else |s|
  }

  /** Python's `s.strip()`: `s` without its leading and trailing white space. */
  function Strip(s: string): (r: string)
    ensures r == [] || (!IsSpace(r[0]) && !IsSpace(r[|r| - 1]))
    ensures exists a :: OccursAt(s, r, a) && IsBlank(s[..a]) && IsBlank(s[a + |r|..])
    ensures r == [] <==> IsBlank(s)
  {
    var a, b := LeadingSpace(s), TrailingSpace(s);
    if b <= a then
      assert IsBlank(s);
      assert OccursAt(s, [], 0) && s[..0] == [] && s[0..] == s;
      []
    else
      var r := s[a..b];
      assert IsBlank(s[..a]) by {
        forall i | 0 <= i < a ensures IsSpace(s[..a][i]) { assert s[..a][i] == s[i]; }
      }
      assert IsBlank(s[b..]) by {
        forall i | 0 <= i < |s| - b ensures IsSpace(s[b..][i]) { assert s[b..][i] == s[b + i]; }
      }
      assert OccursAt(s, r, a);
      assert r[0] == s[a] && r[|r| - 1] == s[b - 1];
      r
  }

  /** `t` occurs in `s` starting at index `i`. */
  predicate OccursAt(s: string, t: string, i: int) {
    0 <= i && i + |t| <= |s| && s[i..i + |t|] == t
  }

  /** `t` occurs in `s` (Python: `t in s`). */
  ghost predicate Contains(s: string, t: string) {
    exists i :: OccursAt(s, t, i)
  }

  lemma ContainsMiddle(a: string, t: string, b: string)
    ensures Contains(a + t + b, t)
  {
    var s := a + t + b;
    assert s[|a|..|a| + |t|] == t;
    assert OccursAt(s, t, |a|);
  }

  lemma ContainsSelf(t: string)
    ensures Contains(t, t)
  {
    assert t[0..|t|] == t;
    assert OccursAt(t, t, 0);
  }

  /** Appending keeps what a string contains. */
  lemma ContainsLeft(a: string, b: string, t: string)
    requires Contains(a, t)
    ensures Contains(a + b, t)
  {
    var i :| OccursAt(a, t, i);
    assert (a + b)[i..i + |t|] == a[i..i + |t|];
    assert OccursAt(a + b, t, i);
  }

  /** Prepending keeps what a string contains. */
  lemma ContainsRight(a: string, b: string, t: string)
    requires Contains(b, t)
    ensures Contains(a + b, t)
  {
    var i :| OccursAt(b, t, i);
    assert (a + b)[|a| + i..|a| + i + |t|] == b[i..i + |t|];
    assert OccursAt(a + b, t, |a| + i);
  }

  /** A string that contains `t` inside a slice contains `t` itself. */
  lemma ContainsOfSlice(s: string, a: nat, b: nat, t: string)
    requires a <= b <= |s|
    requires Contains(s[a..b], t)
    ensures Contains(s, t)
  {
    var i :| OccursAt(s[a..b], t, i);
    forall j | 0 <= j < |t| ensures s[a + i..a + i + |t|][j] == t[j] {
      assert s[a..b][i..i + |t|][j] == t[j];
    }
    assert OccursAt(s, t, a + i);
  }

  lemma ContainsOfSuffix(s: string, a: nat, t: string)
    requires a <= |s| && Contains(s[a..], t)
    ensures Contains(s, t)
  {
    assert s[a..|s|] == s[a..];
    ContainsOfSlice(s, a, |s|, t);
  }

  /** Whatever occurs in an occurrence of `r` inside `s` occurs in `s`. */
  lemma ContainsOfOccurrence(s: string, r: string, a: int, t: string)
    requires OccursAt(s, r, a)
    ensures Contains(r, t) ==> Contains(s, t)
  {
    if Contains(r, t) {
      assert s[a..a + |r|] == r;
      ContainsOfSlice(s, a, a + |r|, t);
    }
  }

  /** Stripping white space cannot create an occurrence. */
  lemma StripContains(s: string, t: string)
    ensures Contains(Strip(s), t) ==> Contains(s, t)
  {
    var a :| OccursAt(s, Strip(s), a) && IsBlank(s[..a]) && IsBlank(s[a + |Strip(s)|..]);
    ContainsOfOccurrence(s, Strip(s), a, t);
  }

  /** Stripping keeps every occurrence of a text that neither starts nor ends with white space. */
  lemma StripKeepsInner(s: string, t: string)
    requires t != [] && !IsSpace(t[0]) && !IsSpace(t[|t| - 1])
    ensures Contains(s, t) ==> Contains(Strip(s), t)
  {
    if Contains(s, t) {
      var r := Strip(s);
      var a :| OccursAt(s, r, a) && IsBlank(s[..a]) && IsBlank(s[a + |r|..]);
      var i :| OccursAt(s, t, i);
      InnerStart(s, t, i, a);
      InnerEnd(s, t, i, a + |r|);
      OccursInside(s, r, a, t, i);
    }
  }

  /** An occurrence lying within an occurrence of `r` is an occurrence in `r`. */
  lemma OccursInside(s: string, r: string, a: int, t: string, i: int)
    requires OccursAt(s, r, a) && OccursAt(s, t, i) && a <= i && i + |t| <= a + |r|
    ensures OccursAt(r, t, i - a)
  {
    assert r == s[a..a + |r|];
    forall k | 0 <= k < |t| ensures r[i - a + k] == t[k] {
      assert r[i - a + k] == s[i + k];
      assert s[i..i + |t|][k] == s[i + k];
    }
    assert r[i - a..i - a + |t|] == t;
  }

  lemma InnerStart(s: string, t: string, i: int, a: int)
    requires t != [] && !IsSpace(t[0]) && OccursAt(s, t, i)
    requires 0 <= a <= |s| && IsBlank(s[..a])
    ensures a <= i
  {
  }

  lemma InnerEnd(s: string, t: string, i: int, b: int)
    requires t != [] && !IsSpace(t[|t| - 1]) && OccursAt(s, t, i)
    requires 0 <= b <= |s| && IsBlank(s[b..])
    ensures i + |t| <= b
  {
  }

  /** `s` ends with `t` (Python: `s.endswith(t)`). */
  predicate EndsWith(s: string, t: string) {
    |t| <= |s| && s[|s| - |t|..] == t
  }

  lemma EndsWithAppend(a: string, b: string)
    ensures EndsWith(a + b, b)
  {
    assert (a + b)[|a + b| - |b|..] == b;
  }

  lemma AppendAssoc<T>(a: seq<T>, b: seq<T>, c: seq<T>)
    ensures a + b + c == a + (b + c)
  {
  }

  /** Python's `s.replace(pat, "")`: every occurrence of `pat`, taken left to right without overlap, deleted. */
  function Remove(s: string, pat: string): (r: string)
    requires pat != []
    ensures |r| <= |s|
    decreases |s|
  {
    if |s| < |pat| then s
    else if s[..|pat|] == pat then Remove(s[|pat|..], pat)
    else [s[0]] + Remove(s[1..], pat)
  }

  lemma {:induction false} RemoveAbsent(s: string, pat: string)
    requires pat != [] && !Contains(s, pat)
    ensures Remove(s, pat) == s
    decreases |s|
  {
    if |s| >= |pat| {
      assert s[0..|pat|] == s[..|pat|];
      assert !OccursAt(s, pat, 0);
      assert s == [s[0]] + s[1..];
      assert !Contains(s[1..], pat) by {
        if Contains(s[1..], pat) { ContainsOfSuffix(s, 1, pat); }
      }
      RemoveAbsent(s[1..], pat);
    }
  }

  /** Deleting `pat` from `a + pat`, where `pat` first occurs at the very end, gives `a` back. */
  lemma {:induction false} RemoveTrailing(a: string, pat: string)
    requires pat != []
    requires forall i :: 0 <= i < |a| ==> !OccursAt(a + pat, pat, i)
    ensures Remove(a + pat, pat) == a
    decreases |a|
  {
    var s := a + pat;
    if a == [] {
      assert s == pat && s[..|pat|] == pat && s[|pat|..] == [];
    } else {
      assert !OccursAt(s, pat, 0);
      assert s[..|pat|] == s[0..0 + |pat|];
      assert s[1..] == a[1..] + pat;
      forall i | 0 <= i < |a[1..]| ensures !OccursAt(a[1..] + pat, pat, i) {
        assert !OccursAt(s, pat, i + 1);
        if i + |pat| <= |a[1..] + pat| {
          assert s[i + 1..i + 1 + |pat|] == (a[1..] + pat)[i..i + |pat|];
        }
      }
      RemoveTrailing(a[1..], pat);
    }
  }

  const Fence: string := "```"

  /** A fence at `i` is three backticks in a row. */
  lemma FenceAt(r: string, i: nat)
    requires i + 3 <= |r|
    ensures OccursAt(r, Fence, i) <==> r[i] == '`' && r[i + 1] == '`' && r[i + 2] == '`'
  {
    if r[i] == '`' && r[i + 1] == '`' && r[i + 2] == '`' {
      assert r[i..i + 3] == Fence;
    }
  }

  /** Deleting every fence can only leave a backtick in front if the input started with one. */
  lemma RemoveFenceHead(t: string)
    requires |Remove(t, Fence)| > 0 && Remove(t, Fence)[0] == '`'
    ensures |t| > 0 && t[0] == '`'
  {
    if |t| >= 3 && t[..3] == Fence {
      assert t[..3][0] == t[0];
    }
  }

  /** Deleting every fence can only leave two backticks in front if the input started with two. */
  lemma RemoveFenceHead2(t: string)
    requires |Remove(t, Fence)| > 1 && Remove(t, Fence)[0] == '`' && Remove(t, Fence)[1] == '`'
    ensures |t| > 1 && t[0] == '`' && t[1] == '`'
  {
    if |t| >= 3 && t[..3] == Fence {
      assert t[..3][0] == t[0] && t[..3][1] == t[1];
    } else if |t| >= 3 {
      var rest := Remove(t[1..], Fence);
      assert Remove(t, Fence) == [t[0]] + rest;
      RemoveFenceHead(t[1..]);
    }
  }

  /** The fence-stripping step cannot leave a fence behind: `s.replace("```", "")` never contains "```". */
  lemma {:induction false} RemoveFenceLeavesNone(s: string)
    ensures !Contains(Remove(s, Fence), Fence)
    decreases |s|
  {
    if |s| < 3 {
    } else if s[..3] == Fence {
      RemoveFenceLeavesNone(s[3..]);
    } else {
      var r, rest := Remove(s, Fence), Remove(s[1..], Fence);
      RemoveFenceLeavesNone(s[1..]);
      assert r == [s[0]] + rest;
      forall i | 0 <= i && i + 3 <= |r| ensures !OccursAt(r, Fence, i) {
        if i == 0 {
          NoFenceAtFront(s);
        } else {
          NoFenceShifted(s[0], rest, i);
        }
      }
    }
  }

  /** When `s` does not start with a fence, neither does `Remove(s, Fence)`. */
  lemma NoFenceAtFront(s: string)
    requires |s| >= 3 && s[..3] != Fence
    ensures !OccursAt(Remove(s, Fence), Fence, 0)
  {
    var r, rest := Remove(s, Fence), Remove(s[1..], Fence);
    assert r == [s[0]] + rest;
    if |r| >= 3 {
      FenceAt(r, 0);
      FenceAt(s, 0);
      if r[1] == '`' && r[2] == '`' {
        assert rest[0] == r[1] && rest[1] == r[2];
        RemoveFenceHead2(s[1..]);
        assert s[1] == '`' && s[2] == '`';
      }
    }
  }

  /** A fence inside `[c] + rest` after the first character would be a fence inside `rest`. */
  lemma NoFenceShifted(c: char, rest: string, i: nat)
    requires !Contains(rest, Fence) && 1 <= i
    ensures !OccursAt([c] + rest, Fence, i)
  {
    if i + 3 <= |[c] + rest| {
      assert ([c] + rest)[i..i + 3] == rest[i - 1..i - 1 + 3];
      assert !OccursAt(rest, Fence, i - 1);
    }
  }

  /** Python's `sep.join(parts)`. */
  function Join(sep: string, parts: seq<string>): (r: string)
    decreases |parts|
  {
    if |parts| == 0 then ""
    else if |parts| == 1 then parts[0]
    else parts[0] + sep + Join(sep, parts[1..])
  }

  /** Every part occurs in the joined text. */
  lemma {:induction false} JoinContainsPart(sep: string, parts: seq<string>, k: nat)
    requires k < |parts|
    ensures Contains(Join(sep, parts), parts[k])
    decreases |parts|
  {
    if |parts| == 1 {
      ContainsMiddle("", parts[0], "");
      assert "" + parts[0] + "" == parts[0];
    } else if k == 0 {
      ContainsMiddle("", parts[0], sep + Join(sep, parts[1..]));
      assert "" + parts[0] + (sep + Join(sep, parts[1..])) == Join(sep, parts);
    } else {
      var tail := Join(sep, parts[1..]);
      JoinContainsPart(sep, parts[1..], k - 1);
      var s := Join(sep, parts);
      assert s[|parts[0] + sep|..] == tail;
      ContainsOfSuffix(s, |parts[0] + sep|, parts[k]);
    }
  }

  /** The number of occurrences of `c` in `s`. */
  function CountChar(s: string, c: char): nat
  {
    if s == [] then 0 else (if s[0] == c then 1 else 0) + CountChar(s[1..], c)
  }

  lemma {:induction false} CountCharAppend(a: string, b: string, c: char)
    ensures CountChar(a + b, c) == CountChar(a, c) + CountChar(b, c)
    decreases |a|
  {
    if a != [] {
      assert (a + b)[1..] == a[1..] + b;
      CountCharAppend(a[1..], b, c);
    } else {
      assert a + b == b;
    }
  }

  /** `s` holds no line break. */
  predicate SingleLine(s: string) {
    '\n' !in s
  }

  lemma {:induction false} SingleLineCount(s: string)
    requires SingleLine(s)
    ensures CountChar(s, '\n') == 0
  {
    if s != [] {
      assert s[0] in s;
      assert forall c :: c in s[1..] ==> c in s;
      SingleLineCount(s[1..]);
    }
  }

  /** Appending text without line breaks adds none. */
  lemma AppendSingleLine(a: string, b: string)
    requires SingleLine(b)
    ensures CountChar(a + b, '\n') == CountChar(a, '\n')
  {
    CountCharAppend(a, b, '\n');
    SingleLineCount(b);
  }

  /** The concatenation of `parts` (Python: repeated `+=`). */
  function Concat(parts: seq<string>): string
    decreases |parts|
  {
    if parts == [] then "" else parts[0] + Concat(parts[1..])
  }

  lemma {:induction false} ConcatAppend(a: seq<string>, b: seq<string>)
    ensures Concat(a + b) == Concat(a) + Concat(b)
    decreases |a|
  {
    if a == [] {
      assert a + b == b;
    } else {
      assert (a + b)[1..] == a[1..] + b;
      ConcatAppend(a[1..], b);
    }
  }

  /** Python's `s * n`. */
  function Repeat(s: string, n: nat): (r: string)
    ensures |r| == n * |s|
  {
    if n == 0 then "" else s + Repeat(s, n - 1)
  }

  function DigitChar(d: nat): (c: char)
    requires d < 10
    ensures '0' <= c <= '9'
  {
    '0' + d as char
  }

  predicate IsDigits(s: string) {
    forall i :: 0 <= i < |s| ==> '0' <= s[i] <= '9'
  }

  /** The number a string of decimal digits denotes. */
  function DecimalValue(s: string): nat
    requires IsDigits(s)
  {
    if s == [] then 0 else DecimalValue(s[..|s| - 1]) * 10 + (s[|s| - 1] - '0') as nat
  }

  /** Python's `str(n)` for a natural number: its decimal digits, without leading zeros. */
  function NatToString(n: nat): (r: string)
    ensures r != [] && IsDigits(r)
    ensures |r| > 1 ==> r[0] != '0'
  {
    if n < 10 then [DigitChar(n)] else NatToString(n / 10) + [DigitChar(n % 10)]
  }

  lemma DigitsSingleLine(s: string)
    requires IsDigits(s)
    ensures SingleLine(s)
  {
    assert forall i :: 0 <= i < |s| ==> s[i] != '\n';
  }

  /** Reading back the digits of `str(n)` gives `n`. */
  lemma {:induction false} NatToStringRoundTrip(n: nat)
    ensures DecimalValue(NatToString(n)) == n
  {
    if n >= 10 {
      var s := NatToString(n);
      assert s[..|s| - 1] == NatToString(n / 10);
      NatToStringRoundTrip(n / 10);
    }
  }
}
