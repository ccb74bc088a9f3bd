/**
 * String helpers shared by the model: `Array.prototype.join` over strings,
 * `String.prototype.trim` with the ECMAScript white-space set, filtering,
 * character replacement and the infix relation used to state what a
 * rendered text contains.
 */
module Strings {

  /** `parts.join(sep)`: the parts in order with `sep` between neighbours. */
  function Join(parts: seq<string>, sep: string): string
  {
    if |parts| == 0 then ""
    else if |parts| == 1 then parts[0]
    else parts[0] + sep + Join(parts[1..], sep)
  }

  /** The parts written one after another, as a template literal does. */
  function Concat(parts: seq<string>): string
  {
    if |parts| == 0 then "" else parts[0] + Concat(parts[1..])
  }

  lemma ConcatPair(a: string, b: string)
    ensures Concat([a]) == a
    ensures Concat([a, b]) == a + b
  {
    assert [a, b][1..] == [b];
    assert [a][1..] == [] && [b][1..] == [];
    assert Concat([b]) == b + Concat([]);
    assert b + "" == b && a + "" == a;
  }

  lemma {:induction false} ConcatSplit(parts: seq<string>, i: nat)
    requires i <= |parts|
    ensures Concat(parts) == Concat(parts[..i]) + Concat(parts[i..])
  {
    if i > 0 {
      ConcatSplit(parts[1..], i - 1);
      assert parts[1..][..i - 1] == parts[..i][1..];
      assert parts[1..][i - 1..] == parts[i..];
    }
  }

  /** Part `i` of a template occurs right after the parts before it. */
  lemma PartOccurs(parts: seq<string>, i: nat)
    requires i < |parts|
    ensures OccursAt(parts[i], Concat(parts), |Concat(parts[..i])|)
    ensures IsInfix(parts[i], Concat(parts))
  {
    ConcatSplit(parts, i);
    assert Concat(parts[i..]) == parts[i] + Concat(parts[i + 1..]);
    var k := |Concat(parts[..i])|;
    assert Concat(parts)[k..k + |parts[i]|] == parts[i];
    assert OccursAt(parts[i], Concat(parts), k);
  }

  /** The last parts of a template are its end. */
  lemma PartsEnd(parts: seq<string>, i: nat)
    requires i <= |parts|
    ensures |Concat(parts[i..])| <= |Concat(parts)|
    ensures Concat(parts)[|Concat(parts)| - |Concat(parts[i..])|..] == Concat(parts[i..])
  {
    ConcatSplit(parts, i);
  }

  /** A template ends with its last two parts. */
  lemma EndsWithLastTwo(parts: seq<string>)
    requires |parts| >= 2
    ensures var t := parts[|parts| - 2] + parts[|parts| - 1];
      |t| <= |Concat(parts)| && Concat(parts)[|Concat(parts)| - |t|..] == t
  {
    var n := |parts| - 2;
    PartsEnd(parts, n);
    assert parts[n..] == [parts[n], parts[n + 1]];
    ConcatPair(parts[n], parts[n + 1]);
  }

  /** True when `t` occurs in `s` at offset `k`. */
  predicate OccursAt(t: string, s: string, k: nat)
  {
    k + |t| <= |s| && s[k..k + |t|] == t
  }

  /** True when `t` occurs somewhere in `s`. */
  predicate IsInfix(t: string, s: string)
  {
    exists k: nat | k <= |s| :: OccursAt(t, s, k)
  }

  lemma InfixOfConcat(a: string, t: string, b: string)
    ensures OccursAt(t, a + t + b, |a|)
    ensures IsInfix(t, a + t + b)
  {
    assert (a + t + b)[|a|..|a| + |t|] == t;
    assert OccursAt(t, a + t + b, |a|);
  }

  /**
   * The characters `String.prototype.trim` removes: the ECMAScript
   * WhiteSpace and LineTerminator code points.
   */
  predicate IsJsWhitespace(c: char)
  {
    || c == ' ' || c == '\t' || c == '\n' || c == '\r' || c == '\U{000B}' || c == '\U{000C}'
    || c == '\U{00A0}' || c == '\U{1680}' || ('\U{2000}' <= c <= '\U{200A}')
    || c == '\U{2028}' || c == '\U{2029}' || c == '\U{202F}' || c == '\U{205F}'
    || c == '\U{3000}' || c == '\U{FEFF}'
  }

  /** Every character of `s` is white space (the empty string included). */
  predicate IsBlank(s: string)
  {
    forall i :: 0 <= i < |s| ==> IsJsWhitespace(s[i])
  }

  function TrimStart(s: string): (r: string)
    ensures |r| <= |s| && r == s[|s| - |r|..]
    ensures |r| > 0 ==> !IsJsWhitespace(r[0])
    ensures IsBlank(s[..|s| - |r|])
  {
    if |s| > 0 && IsJsWhitespace(s[0]) then
      var r := TrimStart(s[1..]);
      assert s[..|s| - |r|] == [s[0]] + s[1..][..|s[1..]| - |r|];
      r
    else s
  }

  function TrimEnd(s: string): (r: string)
    ensures |r| <= |s| && r == s[..|r|]
    ensures |r| > 0 ==> !IsJsWhitespace(r[|r| - 1])
    ensures IsBlank(s[|r|..])
  {
    if |s| > 0 && IsJsWhitespace(s[|s| - 1]) then
      var r := TrimEnd(s[..|s| - 1]);
      assert s[|r|..] == s[..|s| - 1][|r|..] + [s[|s| - 1]];
      r
    else s
  }

  /** `s.trim()`: white space removed from both ends. */
  function Trim(s: string): (r: string)
    ensures r == "" <==> IsBlank(s)
    ensures |r| > 0 ==> !IsJsWhitespace(r[0]) && !IsJsWhitespace(r[|r| - 1])
  {
    TrimBlank(s);
    TrimEnd(TrimStart(s))
  }

  /** Trimming both ends leaves nothing exactly when `s` is blank, and otherwise starts with a non-blank character. */
  lemma TrimBlank(s: string)
    ensures TrimEnd(TrimStart(s)) == "" <==> IsBlank(s)
    ensures |TrimEnd(TrimStart(s))| > 0 ==> !IsJsWhitespace(TrimEnd(TrimStart(s))[0])
  {
    var t := TrimStart(s);
    var r := TrimEnd(t);
    if r == "" {
      assert IsBlank(t[0..]);
      assert t[0..] == t;
      if |t| > 0 {
        assert false;
      }
      assert s[..|s| - |t|] == s;
    } else {
      assert r == t[..|r|];
      assert t == s[|s| - |t|..];
      assert r[0] == s[|s| - |t|];
      assert !IsJsWhitespace(s[|s| - |t|]);
    }
  }

  /** A string whose first and last characters are not white space is its own trim. */
  lemma TrimOfTrimmed(s: string)
    requires |s| > 0 ==> !IsJsWhitespace(s[0]) && !IsJsWhitespace(s[|s| - 1])
    ensures Trim(s) == s
  {
  }

  /** The characters of `s` that satisfy `keep`, in order. */
  function Filter(s: string, keep: char -> bool): (r: string)
    ensures |r| <= |s|
    ensures forall i :: 0 <= i < |r| ==> keep(r[i])
  {
    if |s| == 0 then ""
    else (if keep(s[0]) then [s[0]] else "") + Filter(s[1..], keep)
  }

  lemma {:induction false} FilterConcat(a: string, b: string, keep: char -> bool)
    ensures Filter(a + b, keep) == Filter(a, keep) + Filter(b, keep)
  {
    if |a| == 0 {
      assert a + b == b;
    } else {
      assert (a + b)[1..] == a[1..] + b;
      FilterConcat(a[1..], b, keep);
    }
  }

  /** Filtering a string all of whose characters are kept changes nothing. */
  lemma {:induction false} FilterKeepsAll(s: string, keep: char -> bool)
    requires forall i :: 0 <= i < |s| ==> keep(s[i])
    ensures Filter(s, keep) == s
  {
    if |s| > 0 {
      FilterKeepsAll(s[1..], keep);
    }
  }

  /** Filtering twice with the same test is filtering once. */
  lemma FilterIdempotent(s: string, keep: char -> bool)
    ensures Filter(Filter(s, keep), keep) == Filter(s, keep)
  {
    FilterKeepsAll(Filter(s, keep), keep);
  }

  /** `t` is `s` with some characters deleted: its characters occur in `s` in the same order. */
  predicate IsSubsequence(t: string, s: string)
    decreases |s|
  {
    if |t| == 0 then true
    else if |s| == 0 then false
    else (t[0] == s[0] && IsSubsequence(t[1..], s[1..])) || IsSubsequence(t, s[1..])
  }

  lemma {:induction false} FilterIsSubsequence(s: string, keep: char -> bool)
    ensures IsSubsequence(Filter(s, keep), s)
  {
    if |s| > 0 {
      var rest := Filter(s[1..], keep);
      FilterIsSubsequence(s[1..], keep);
      if keep(s[0]) {
        var t := Filter(s, keep);
        assert t == [s[0]] + rest;
        assert t[0] == s[0] && t[1..] == rest;
      } else {
        assert Filter(s, keep) == rest;
        assert |rest| == 0 || IsSubsequence(rest, s[1..]);
      }
    }
  }

  /** The number of occurrences of `c` in `s`. */
  function Count(s: string, c: char): nat
  {
    if |s| == 0 then 0 else (if s[0] == c then 1 else 0) + Count(s[1..], c)
  }

  /** Filtering keeps every occurrence of a kept character and drops every other one. */
  lemma {:induction false} FilterCount(s: string, keep: char -> bool, c: char)
    ensures Count(Filter(s, keep), c) == if keep(c) then Count(s, c) else 0
  {
    if |s| > 0 {
      FilterCount(s[1..], keep, c);
      var head := if keep(s[0]) then [s[0]] else "";
      CountConcat(head, Filter(s[1..], keep), c);
    }
  }

  lemma {:induction false} CountConcat(a: string, b: string, c: char)
    ensures Count(a + b, c) == Count(a, c) + Count(b, c)
  {
    if |a| > 0 {
      assert (a + b)[1..] == a[1..] + b;
      CountConcat(a[1..], b, c);
    } else {
      assert a + b == b;
    }
  }

  /** `s.replace(/[...]/g, to)`: every character in `from` replaced by `to`. */
  function ReplaceChars(s: string, from: set<char>, to: char): (r: string)
    ensures |r| == |s|
  {
    if |s| == 0 then ""
    else [if s[0] in from then to else s[0]] + ReplaceChars(s[1..], from, to)
  }

  lemma {:induction false} ReplaceCharsPointwise(s: string, from: set<char>, to: char)
    ensures forall i :: 0 <= i < |s| ==>
      ReplaceChars(s, from, to)[i] == if s[i] in from then to else s[i]
  {
    if |s| > 0 {
      ReplaceCharsPointwise(s[1..], from, to);
    }
  }
}
