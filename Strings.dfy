/**
 * The FString operations the plugin relies on, over `seq<char>`.
 * Unreal's Find, Replace, StartsWith and EndsWith ignore case by default;
 * here every comparison is case-sensitive.
 */
module Strings {

  datatype Option<T> = None | Some(value: T)

  /** `pat` occurs in `s` starting at index `i`. */
  predicate OccursAt(s: string, pat: string, i: int)
  {
    0 <= i && i + |pat| <= |s| && s[i..i + |pat|] == pat
  }

  /** `pat` occurs nowhere in `t`. */
  ghost predicate NoOccurrence(t: string, pat: string)
  {
    forall i :: !OccursAt(t, pat, i)
  }

  predicate StartsWith(s: string, prefix: string)
  {
    |prefix| <= |s| && s[..|prefix|] == prefix
  }

  predicate EndsWith(s: string, suffix: string)
  {
    |suffix| <= |s| && s[|s| - |suffix|..] == suffix
  }

  /** FString::RightChop: drop the first `n` characters (everything if `n` is too large). */
  function RightChop(s: string, n: nat): string
  {
    if n >= |s| then [] else s[n..]
  }

  /** First index at or after `from` where `pat` occurs, or -1. */
  function FindFrom(s: string, pat: string, from: nat): (r: int)
    decreases |s| - from, 1
    ensures r == -1 || (from <= r && r + |pat| <= |s|)
  {
    if from + |pat| > |s| then -1 else FindAt(s, pat, from)
  }

  /** FindFrom once `pat` fits at `from`: `from` itself if it matches there, else the search goes on. */
  function FindAt(s: string, pat: string, from: nat): (r: int)
    requires from + |pat| <= |s|
    decreases |s| - from, 0
    ensures r == -1 || (from <= r && r + |pat| <= |s|)
  {
    if s[from..from + |pat|] == pat then from else FindFrom(s, pat, from + 1)
  }

  /** FString::Find: index of the first occurrence of `pat`, or -1 (INDEX_NONE). */
  function Find(s: string, pat: string): (r: int)
    ensures -1 <= r && (r >= 0 ==> r + |pat| <= |s|)
  {
    FindFrom(s, pat, 0)
  }

  /** FindFrom returns an occurrence with none between `from` and it, or -1 when there is none from `from` on. */
  lemma {:induction false} FindFromIsFirst(s: string, pat: string, from: nat)
    decreases |s| - from
    ensures var r := FindFrom(s, pat, from);
      (r == -1 ==> forall j :: from <= j ==> !OccursAt(s, pat, j)) &&
      (r >= 0 ==> OccursAt(s, pat, r) && forall j :: from <= j < r ==> !OccursAt(s, pat, j))
  {
    if from + |pat| > |s| {
    } else if s[from..from + |pat|] == pat {
      assert FindAt(s, pat, from) == from;
    } else {
      assert FindAt(s, pat, from) == FindFrom(s, pat, from + 1);
      FindFromIsFirst(s, pat, from + 1);
    }
  }

  /** Find returns the first occurrence of `pat`, and -1 exactly when there is none. */
  lemma FindIsFirstOccurrence(s: string, pat: string)
    ensures Find(s, pat) == -1 <==> NoOccurrence(s, pat)
    ensures Find(s, pat) >= 0 ==>
      OccursAt(s, pat, Find(s, pat)) && forall j :: 0 <= j < Find(s, pat) ==> !OccursAt(s, pat, j)
  {
    FindFromIsFirst(s, pat, 0);
  }

  /** An occurrence with none before it is what Find returns. */
  lemma FindIsFirst(s: string, pat: string, i: int)
    requires OccursAt(s, pat, i)
    requires forall j :: 0 <= j < i ==> !OccursAt(s, pat, j)
    ensures Find(s, pat) == i
  {
    FindIsFirstOccurrence(s, pat);
  }

  /** Find reports an occurrence at or before any known one. */
  lemma FindFindsOccurrence(s: string, pat: string, i: int)
    requires OccursAt(s, pat, i)
    ensures 0 <= Find(s, pat) <= i
  {
    FindIsFirstOccurrence(s, pat);
  }

  /** An occurrence inside `m` is an occurrence inside `x + m + y`, shifted by `|x|`. */
  lemma OccursInMiddle(x: string, m: string, y: string, pat: string, k: int)
    requires OccursAt(m, pat, k)
    ensures OccursAt(x + m + y, pat, |x| + k)
  {
    var s := x + m + y;
    assert s[|x| + k..|x| + k + |pat|] == m[k..k + |pat|];
  }

  /** FString::FindLastChar: index of the last `c` in `s`, or -1. */
  function FindLastChar(s: string, c: char): (r: int)
    ensures -1 <= r < |s|
    ensures r == -1 <==> c !in s
    ensures r >= 0 ==> s[r] == c && c !in s[r + 1..]
  {
    if |s| == 0 then -1
    else if s[|s| - 1] == c then |s| - 1
    else FindLastChar(s[..|s| - 1], c)
  }

  /** The elements of a sequence. */
  function Elements(s: seq<string>): set<string>
  {
    set x | x in s
  }

  /** Appending one element adds exactly that element. */
  lemma ElementsAppend(s: seq<string>, x: string)
    ensures Elements(s + [x]) == Elements(s) + {x}
  {
    assert forall y :: y in s + [x] <==> y in s || y == x;
  }

  /** `s` without the prefix `p`, when it starts with `p`. */
  function DropPrefix(s: string, p: string): string
  {
    if StartsWith(s, p) then RightChop(s, |p|) else s
  }

  /** Cutting a prefix that is there leaves the rest. */
  lemma DropPrefixOf(p: string, rest: string)
    ensures DropPrefix(p + rest, p) == rest
  {
    assert (p + rest)[..|p|] == p;
    assert (p + rest)[|p|..] == rest;
  }

  /**
   * FString::Replace: every non-overlapping occurrence of `pat`, scanning
   * left to right, is replaced by `rep`.
   */
  function ReplaceAll(s: string, pat: string, rep: string): string
    requires |pat| > 0
    decreases |s|
  {
    if |s| < |pat| then s
    else if s[..|pat|] == pat then rep + ReplaceAll(s[|pat|..], pat, rep)
    else [s[0]] + ReplaceAll(s[1..], pat, rep)
  }

  /** FString::IsNumeric: non-empty; after an optional sign, only digits and at most one '.'. */
  predicate IsNumeric(s: string)
  {
    |s| > 0 && DigitsWithOneDot(if s[0] == '+' || s[0] == '-' then s[1..] else s)
  }

  predicate DigitsWithOneDot(t: string)
  {
    (forall i :: 0 <= i < |t| ==> ('0' <= t[i] <= '9' || t[i] == '.')) &&
    (forall i, j :: 0 <= i < j < |t| && t[i] == '.' ==> t[j] != '.')
  }

  // ---------------------------------------------------------------------
  // Facts about occurrences

  /** A slice of a prefix is the same slice of the whole. */
  lemma SliceOfPrefix(s: string, n: int, a: int, b: int)
    requires 0 <= a <= b <= n <= |s|
    ensures s[..n][a..b] == s[a..b]
  {
    assert forall k :: 0 <= k < b - a ==> s[..n][a..b][k] == s[a..b][k];
  }

  /** A text that lacks the first character of `pat` cannot contain `pat`. */
  lemma NoOccurrenceWithoutHead(t: string, pat: string)
    requires |pat| > 0 && pat[0] !in t
    ensures NoOccurrence(t, pat)
  {
    forall i ensures !OccursAt(t, pat, i) {
      if 0 <= i && i + |pat| <= |t| {
        assert t[i..i + |pat|][0] == t[i];
      }
    }
  }

  /**
   * Two texts free of `pat`, joined at a boundary character that `pat`
   * does not contain, are still free of `pat`.
   */
  lemma ConcatNoOccurrence(a: string, b: string, pat: string)
    requires NoOccurrence(a, pat) && NoOccurrence(b, pat)
    requires (|a| > 0 && a[|a| - 1] !in pat) || (|b| > 0 && b[0] !in pat)
    ensures NoOccurrence(a + b, pat)
  {
    var s := a + b;
    forall i | 0 <= i && i + |pat| <= |s| ensures !OccursAt(s, pat, i) {
      if i + |pat| <= |a| {
        assert s[i..i + |pat|] == a[i..i + |pat|];
        assert !OccursAt(a, pat, i);
      } else if i >= |a| {
        assert s[i..i + |pat|] == b[i - |a|..i - |a| + |pat|];
        assert !OccursAt(b, pat, i - |a|);
      } else if |a| > 0 && a[|a| - 1] !in pat && i <= |a| - 1 {
        assert s[i..i + |pat|][|a| - 1 - i] == a[|a| - 1];
      } else {
        assert s[i..i + |pat|][|a| - i] == b[0];
      }
    }
  }

  /**
   * `p` wrapped between a text lacking the first character of `pat` and a
   * text lacking its last character is free of `pat` when `p` is.
   */
  lemma WrappedNoOccurrence(a: string, p: string, b: string, pat: string)
    requires |pat| > 0 && pat[0] !in a && pat[|pat| - 1] !in b
    requires NoOccurrence(p, pat)
    ensures NoOccurrence(a + p + b, pat)
  {
    var s := a + p + b;
    forall i | 0 <= i && i + |pat| <= |s| ensures !OccursAt(s, pat, i) {
      if i < |a| {
        assert s[i..i + |pat|][0] == a[i];
      } else if i + |pat| <= |a| + |p| {
        assert s[i..i + |pat|] == p[i - |a|..i - |a| + |pat|];
        assert !OccursAt(p, pat, i - |a|);
      } else {
        assert s[i..i + |pat|][|pat| - 1] == b[i + |pat| - 1 - |a| - |p|];
      }
    }
  }

  /**
   * In `t + u`, where `t` is free of `pat` and ends with a character `pat`
   * lacks, no occurrence of `pat` starts inside `t`.
   */
  lemma NoOccurrenceStartsIn(t: string, u: string, pat: string)
    requires NoOccurrence(t, pat) && |t| > 0 && t[|t| - 1] !in pat
    ensures forall i :: 0 <= i < |t| ==> !OccursAt(t + u, pat, i)
  {
    var s := t + u;
    forall i | 0 <= i < |t| && i + |pat| <= |s| ensures !OccursAt(s, pat, i) {
      if i + |pat| <= |t| {
        assert s[i..i + |pat|] == t[i..i + |pat|];
        assert !OccursAt(t, pat, i);
      } else {
        assert s[i..i + |pat|][|t| - 1 - i] == t[|t| - 1];
      }
    }
  }

  // ---------------------------------------------------------------------
  // Facts about ReplaceAll

  /** Replacement splits at a character that `pat` does not contain. */
  lemma {:induction false} ReplaceAllSplits(x: string, y: string, pat: string, rep: string)
    requires |pat| > 0 && |y| > 0 && y[0] !in pat
    ensures ReplaceAll(x + y, pat, rep) == ReplaceAll(x, pat, rep) + ReplaceAll(y, pat, rep)
    decreases |x|
  {
    if |x| == 0 {
      assert x + y == y;
    } else if |x + y| < |pat| {
    } else if |x| < |pat| || (x + y)[..|pat|] != pat {
      if |x| < |pat| {
        assert (x + y)[..|pat|][|x|] == y[0];
      }
      ReplaceAllSplits(x[1..], y, pat, rep);
      ReplaceAllSplitsMiss(x, y, pat, rep);
    } else {
      ReplaceAllSplits(x[|pat|..], y, pat, rep);
      ReplaceAllSplitsMatch(x, y, pat, rep);
    }
  }

  /** ReplaceAllSplits' step when `x + y` does not start with `pat`. */
  lemma ReplaceAllSplitsMiss(x: string, y: string, pat: string, rep: string)
    requires |pat| > 0 && |x| > 0 && |x + y| >= |pat| && (x + y)[..|pat|] != pat
    requires ReplaceAll(x[1..] + y, pat, rep) == ReplaceAll(x[1..], pat, rep) + ReplaceAll(y, pat, rep)
    ensures ReplaceAll(x + y, pat, rep) == ReplaceAll(x, pat, rep) + ReplaceAll(y, pat, rep)
  {
    var s := x + y;
    assert s[1..] == x[1..] + y;
    assert ReplaceAll(s, pat, rep) == [x[0]] + ReplaceAll(x[1..], pat, rep) + ReplaceAll(y, pat, rep);
    if |x| < |pat| {
      assert x == [x[0]] + x[1..];
    } else {
      assert x[..|pat|] == s[..|pat|];
    }
  }

  /** ReplaceAllSplits' step when `x` starts with `pat`. */
  lemma ReplaceAllSplitsMatch(x: string, y: string, pat: string, rep: string)
    requires |pat| > 0 && |x| >= |pat| && (x + y)[..|pat|] == pat
    requires ReplaceAll(x[|pat|..] + y, pat, rep) == ReplaceAll(x[|pat|..], pat, rep) + ReplaceAll(y, pat, rep)
    ensures ReplaceAll(x + y, pat, rep) == ReplaceAll(x, pat, rep) + ReplaceAll(y, pat, rep)
  {
    var s := x + y;
    assert x[..|pat|] == pat;
    assert s[|pat|..] == x[|pat|..] + y;
  }

  /** Replacement passes over a text that lacks the first character of `pat`. */
  lemma {:induction false} ReplaceAllSkips(m: string, y: string, pat: string, rep: string)
    requires |pat| > 0 && pat[0] !in m
    ensures ReplaceAll(m + y, pat, rep) == m + ReplaceAll(y, pat, rep)
    decreases |m|
  {
    var s := m + y;
    if |m| == 0 {
      assert s == y;
    } else if |s| < |pat| {
      assert ReplaceAll(y, pat, rep) == y;
    } else {
      assert s[..|pat|][0] == m[0];
      assert s[1..] == m[1..] + y;
      ReplaceAllSkips(m[1..], y, pat, rep);
      assert m == [m[0]] + m[1..];
    }
  }

  /**
   * A marker `m` that starts with a character absent from `pat`, and that
   * lacks the first character of `pat`, survives replacement untouched.
   */
  lemma ReplaceAllKeeps(x: string, m: string, y: string, pat: string, rep: string)
    requires |pat| > 0 && |m| > 0 && m[0] !in pat && pat[0] !in m
    ensures ReplaceAll(x + m + y, pat, rep) == ReplaceAll(x, pat, rep) + m + ReplaceAll(y, pat, rep)
  {
    assert x + m + y == x + (m + y);
    ReplaceAllSplits(x, m + y, pat, rep);
    ReplaceAllSkips(m, y, pat, rep);
  }

  /** Replacing a one-character pattern by a text that lacks it removes it entirely. */
  lemma {:induction false} ReplaceAllRemovesChar(s: string, c: char, rep: string)
    requires c !in rep
    ensures c !in ReplaceAll(s, [c], rep)
    decreases |s|
  {
    if |s| >= 1 {
      ReplaceAllRemovesChar(s[1..], c, rep);
    }
  }
}
