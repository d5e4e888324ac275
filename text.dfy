/** The Python `str` operations the scripts rely on, over `string` (a sequence of
    Unicode scalar values, like a Python 3 `str` read from a UTF-8 file). */
module Text {

  /** `p` occurs in `s` starting at index `i`. */
  predicate IsAt(s: string, p: string, i: nat) {
    i + |p| <= |s| && s[i..i + |p|] == p
  }

  /** Python `s.startswith(p)`. */
  predicate StartsWith(s: string, p: string) {
    IsAt(s, p, 0)
  }

  /** Python `s.endswith(p)`. */
  predicate EndsWith(s: string, p: string) {
    |p| <= |s| && s[|s| - |p|..] == p
  }

  /** Python `s.find(p, from)`: the lowest index at or after `from` where `p`
      occurs, or -1 when there is none. */
  function Find(s: string, p: string, from: nat): (r: int)
    ensures r == -1 || (from <= r && IsAt(s, p, r))
    ensures r != -1 ==> forall k :: from <= k < r ==> !IsAt(s, p, k)
    ensures r == -1 ==> forall k :: from <= k ==> !IsAt(s, p, k)
    decreases |s| - from
  {
    if from + |p| > |s| then -1
    else if IsAt(s, p, from) then from
    else Find(s, p, from + 1)
  }

  /** Python `p in s` on two strings. */
  predicate Contains(s: string, p: string) {
    Find(s, p, 0) != -1
  }

  lemma ContainsIff(s: string, p: string)
    ensures Contains(s, p) <==> exists k: nat :: IsAt(s, p, k)
  {
    if !Contains(s, p) {
      forall k: nat ensures !IsAt(s, p, k) {
        assert 0 <= k;
      }
    }
  }

  /** Python `any(p in s for p in ps)`. */
  predicate ContainsAny(s: string, ps: seq<string>) {
    exists i :: 0 <= i < |ps| && Contains(s, ps[i])
  }

  /** `any(p in s for p in [a, b])`, case by case. */
  lemma ContainsAnyOfTwo(s: string, a: string, b: string)
    ensures ContainsAny(s, [a, b]) <==> Contains(s, a) || Contains(s, b)
  {
    var ps := [a, b];
    assert ps[0] == a && ps[1] == b;
  }

  /** `any(p in s for p in [a, b, c])`, case by case. */
  lemma ContainsAnyOfThree(s: string, a: string, b: string, c: string)
    ensures ContainsAny(s, [a, b, c]) <==> Contains(s, a) || Contains(s, b) || Contains(s, c)
  {
    var ps := [a, b, c];
    assert ps[0] == a && ps[1] == b && ps[2] == c;
  }

  /** Python `s.count(p, from)` for a non-empty `p`: the number of
      non-overlapping occurrences, scanning from the left. */
  function CountFrom(s: string, p: string, from: nat): (n: nat)
    requires |p| > 0
    ensures n > 0 <==> Find(s, p, from) != -1
    decreases |s| - from
  {
    var j := Find(s, p, from);
    if j == -1 then 0 else 1 + CountFrom(s, p, j + |p|)
  }

  function Count(s: string, p: string): nat
    requires |p| > 0
  {
    CountFrom(s, p, 0)
  }

  /** Python `s[from:].split(sep, maxsplit)` for a non-empty separator. */
  function SplitFrom(s: string, sep: string, from: nat, maxsplit: nat): (parts: seq<string>)
    requires |sep| > 0 && from <= |s|
    ensures 1 <= |parts| <= maxsplit + 1
    decreases maxsplit
  {
    if maxsplit == 0 then [s[from..]]
    else
      var j := Find(s, sep, from);
      if j == -1 then [s[from..]]
      else [s[from..j]] + SplitFrom(s, sep, j + |sep|, maxsplit - 1)
  }

  /** Python `s.split(sep, maxsplit)`. */
  function Split(s: string, sep: string, maxsplit: nat): seq<string>
    requires |sep| > 0
  {
    SplitFrom(s, sep, 0, maxsplit)
  }

  /** Python `sep.join(parts)`. */
  function Join(parts: seq<string>, sep: string): string
    requires |parts| > 0
  {
    if |parts| == 1 then parts[0] else parts[0] + sep + Join(parts[1..], sep)
  }

  /** Joining the pieces of a split with the same separator gives the string back. */
  lemma {:induction false} JoinSplitFrom(s: string, sep: string, from: nat, maxsplit: nat)
    requires |sep| > 0 && from <= |s|
    ensures Join(SplitFrom(s, sep, from, maxsplit), sep) == s[from..]
    decreases maxsplit
  {
    if maxsplit > 0 && Find(s, sep, from) != -1 {
      var j := Find(s, sep, from);
      var k: nat := j + |sep|;
      JoinSplitFrom(s, sep, k, maxsplit - 1);
      JoinSplitStep(s, sep, from, maxsplit, j, k);
    } else {
      SplitFromLast(s, sep, from, maxsplit);
      assert Join([s[from..]], sep) == s[from..];
    }
  }

  /** A split that finds a separator joins back to the text around it, given
      that the rest of the split joins back to the rest of the text. */
  lemma JoinSplitStep(s: string, sep: string, from: nat, maxsplit: nat, j: nat, k: nat)
    requires |sep| > 0 && from <= |s| && maxsplit > 0 && j == Find(s, sep, from) && k == j + |sep| <= |s|
    requires Join(SplitFrom(s, sep, k, maxsplit - 1), sep) == s[k..]
    ensures Join(SplitFrom(s, sep, from, maxsplit), sep) == s[from..]
  {
    var rest := SplitFrom(s, sep, k, maxsplit - 1);
    var first := s[from..j];
    SplitFromStep(s, sep, from, maxsplit, j, k);
    JoinCons(first, rest, sep);
    assert Join(SplitFrom(s, sep, from, maxsplit), sep) == first + sep + s[k..];
    Reassemble(s, sep, from, j);
  }

  /** One step of the split: the piece before the first separator, then the
      split of the rest. */
  lemma SplitFromStep(s: string, sep: string, from: nat, maxsplit: nat, j: nat, k: nat)
    requires |sep| > 0 && from <= |s| && maxsplit > 0 && j == Find(s, sep, from) && k == j + |sep| <= |s|
    ensures SplitFrom(s, sep, from, maxsplit) == [s[from..j]] + SplitFrom(s, sep, k, maxsplit - 1)
  {
  }

  /** The last piece of a split: the rest of the text, once the splits are
      used up or no separator follows. */
  lemma SplitFromLast(s: string, sep: string, from: nat, maxsplit: nat)
    requires |sep| > 0 && from <= |s| && (maxsplit == 0 || Find(s, sep, from) == -1)
    ensures SplitFrom(s, sep, from, maxsplit) == [s[from..]]
  {
  }

  lemma JoinCons(first: string, rest: seq<string>, sep: string)
    requires |rest| > 0
    ensures Join([first] + rest, sep) == first + sep + Join(rest, sep)
  {
    assert ([first] + rest)[1..] == rest;
  }

  /** The text before an occurrence of `sep`, `sep` and the text after it. */
  lemma Reassemble(s: string, sep: string, from: nat, j: nat)
    requires from <= j && IsAt(s, sep, j)
    ensures s[from..j] + sep + s[j + |sep|..] == s[from..]
  {
    assert s[from..] == s[from..j] + s[j..j + |sep|] + s[j + |sep|..];
  }

  lemma JoinSplit(s: string, sep: string, maxsplit: nat)
    requires |sep| > 0
    ensures Join(Split(s, sep, maxsplit), sep) == s
  {
    JoinSplitFrom(s, sep, 0, maxsplit);
    assert s[0..] == s;
  }

  /** The characters Python's `str.isspace()`, `str.strip()` and the regular
      expression class `\s` treat as whitespace. */
  const Whitespace: set<char> := {
    '\t', '\n', '\U{000B}', '\U{000C}', '\r', '\U{001C}', '\U{001D}', '\U{001E}', '\U{001F}',
    ' ', '\U{0085}', '\U{00A0}', '\U{1680}',
    '\U{2000}', '\U{2001}', '\U{2002}', '\U{2003}', '\U{2004}', '\U{2005}', '\U{2006}',
    '\U{2007}', '\U{2008}', '\U{2009}', '\U{200A}',
    '\U{2028}', '\U{2029}', '\U{202F}', '\U{205F}', '\U{3000}'
  }

  predicate IsSpace(c: char) {
    c in Whitespace
  }

  /** Drops the leading characters that belong to `cs`. */
  function TrimStart(s: string, cs: set<char>): string {
    if |s| > 0 && s[0] in cs then TrimStart(s[1..], cs) else s
  }

  lemma {:induction false} TrimStartSpec(s: string, cs: set<char>)
    ensures var r := TrimStart(s, cs);
      && |r| <= |s| && r == s[|s| - |r|..]
      && (r == [] || r[0] !in cs)
      && forall k :: 0 <= k < |s| - |r| ==> s[k] in cs
  {
    if |s| > 0 && s[0] in cs {
      TrimStartSpec(s[1..], cs);
    }
  }

  /** Drops the trailing characters that belong to `cs`. */
  function TrimEnd(s: string, cs: set<char>): string {
    if |s| > 0 && s[|s| - 1] in cs then TrimEnd(s[..|s| - 1], cs) else s
  }

  lemma {:induction false} TrimEndSpec(s: string, cs: set<char>)
    ensures var r := TrimEnd(s, cs);
      && |r| <= |s| && r == s[..|r|]
      && (r == [] || r[|r| - 1] !in cs)
      && forall k :: |r| <= k < |s| ==> s[k] in cs
  {
    if |s| > 0 && s[|s| - 1] in cs {
      TrimEndSpec(s[..|s| - 1], cs);
    }
  }

  /** Python `s.strip(chars)`. */
  function StripChars(s: string, cs: set<char>): string {
    TrimEnd(TrimStart(s, cs), cs)
  }

  /** The stripped string is a part of `s` that neither begins nor ends with
      a stripped character. */
  lemma StripCharsSpec(s: string, cs: set<char>)
    ensures var r := StripChars(s, cs);
      && |r| <= |s|
      && (r == [] || (r[0] !in cs && r[|r| - 1] !in cs))
  {
    TrimStartSpec(s, cs);
    TrimEndSpec(TrimStart(s, cs), cs);
  }

  /** Python `s.strip()`. */
  function Strip(s: string): string {
    StripChars(s, Whitespace)
  }

  /** A string whose ending holds no stripped character keeps that ending. */
  lemma StripKeepsEnding(t: string, ending: string, cs: set<char>)
    requires |ending| > 0 && EndsWith(t, ending)
    requires forall k :: 0 <= k < |ending| ==> ending[k] !in cs
    ensures EndsWith(StripChars(t, cs), ending)
  {
    var u := TrimStart(t, cs);
    TrimStartKeepsEnding(t, ending, cs);
    assert TrimEnd(u, cs) == u by {
      assert u[|u| - 1] == ending[|ending| - 1];
    }
  }

  lemma TrimStartKeepsEnding(t: string, ending: string, cs: set<char>)
    requires |ending| > 0 && EndsWith(t, ending)
    requires forall k :: 0 <= k < |ending| ==> ending[k] !in cs
    ensures EndsWith(TrimStart(t, cs), ending)
  {
    var u := TrimStart(t, cs);
    TrimStartSpec(t, cs);
    var n, m := |t|, |ending|;
    var d := n - |u|;
    assert t[n - m] == ending[0] by {
      assert t[n - m..] == ending;
    }
    // TrimStart stops at or before the first character of the ending
    assert d <= n - m;
    assert u == t[d..];
    assert u[|u| - m..] == t[n - m..];
  }

  /** Python `s[k:]` for a non-negative `k`: slicing past the end gives "". */
  function Drop(s: string, k: int): (r: string)
    requires k >= 0
    ensures |r| == if k <= |s| then |s| - k else 0
  {
    if k <= |s| then s[k..] else ""
  }

  /** Python `s[:k]` for a non-negative `k`. */
  function Take(s: string, k: nat): (r: string)
    ensures |r| == if k <= |s| then k else |s|
  {
    if k <= |s| then s[..k] else s
  }

  /** ASCII `c.lower()`. */
  function LowerChar(c: char): char {
    if 'A' <= c <= 'Z' then (c as int + 32) as char else c
  }

  /** Python `s.lower()`, restricted to ASCII letters. */
  function Lower(s: string): (r: string)
    ensures |r| == |s|
    ensures forall k :: 0 <= k < |s| ==> r[k] == LowerChar(s[k])
  {
    if s == [] then [] else [LowerChar(s[0])] + Lower(s[1..])
  }

  /** Number of bytes of the UTF-8 encoding of one character. */
  function Utf8Width(c: char): nat {
    if c as int < 0x80 then 1
    else if c as int < 0x800 then 2
    else if c as int < 0x10000 then 3
    else 4
  }

  /** Python `len(s.encode('utf-8'))`. */
  function Utf8Length(s: string): (n: nat)
    ensures |s| <= n <= 4 * |s|
  {
    if s == [] then 0 else Utf8Width(s[0]) + Utf8Length(s[1..])
  }

  lemma {:induction false} Utf8LengthAppend(a: string, b: string)
    ensures Utf8Length(a + b) == Utf8Length(a) + Utf8Length(b)
  {
    if a == [] {
      assert a + b == b;
    } else {
      assert (a + b)[0] == a[0];
      assert (a + b)[1..] == a[1..] + b;
      Utf8LengthAppend(a[1..], b);
    }
  }

  /** Python's ordering of strings: lexicographic by code point. */
  predicate LexLe(a: string, b: string)
    decreases |a|
  {
    |a| == 0 || (|b| > 0 && (a[0] < b[0] || (a[0] == b[0] && LexLe(a[1..], b[1..]))))
  }

  lemma {:induction false} LexLeTotal(a: string, b: string)
    ensures LexLe(a, b) || LexLe(b, a)
    decreases |a|
  {
    if |a| > 0 && |b| > 0 && a[0] == b[0] {
      LexLeTotal(a[1..], b[1..]);
    }
  }

  lemma {:induction false} LexLeTrans(a: string, b: string, c: string)
    requires LexLe(a, b) && LexLe(b, c)
    ensures LexLe(a, c)
    decreases |a|
  {
    if |a| > 0 && a[0] == b[0] && b[0] == c[0] {
      LexLeTrans(a[1..], b[1..], c[1..]);
    }
  }

  lemma {:induction false} LexLeAntisym(a: string, b: string)
    requires LexLe(a, b) && LexLe(b, a)
    ensures a == b
    decreases |a|
  {
    if |a| > 0 {
      LexLeAntisym(a[1..], b[1..]);
      assert a == [a[0]] + a[1..] && b == [b[0]] + b[1..];
    }
  }

  predicate Sorted(s: seq<string>) {
    forall i, j :: 0 <= i < j < |s| ==> LexLe(s[i], s[j])
  }

  /** Inserts `x` into a sorted sequence before the first element it does
      not exceed. */
  function Insert(x: string, s: seq<string>): (r: seq<string>)
    requires Sorted(s)
    ensures Sorted(r)
    ensures multiset(r) == multiset(s) + multiset{x}
  {
    if s == [] then [x]
    else if LexLe(x, s[0]) then
      assert forall j :: 0 <= j < |s| ==> LexLe(x, s[j]) by {
        forall j | 0 <= j < |s| ensures LexLe(x, s[j]) {
          if j > 0 { LexLeTrans(x, s[0], s[j]); }
        }
      }
      [x] + s
    else
      var rest := Insert(x, s[1..]);
      LexLeTotal(x, s[0]);
      assert s == [s[0]] + s[1..];
      assert forall k :: 0 <= k < |rest| ==> LexLe(s[0], rest[k]) by {
        forall k | 0 <= k < |rest| ensures LexLe(s[0], rest[k]) {
          assert rest[k] in multiset(rest);
          if rest[k] != x {
            assert rest[k] in multiset(s[1..]);
            var j :| 0 <= j < |s[1..]| && s[1..][j] == rest[k];
            assert s[j + 1] == rest[k];
          }
        }
      }
      [s[0]] + rest
  }

  /** Python `sorted(names)`, written as an insertion sort. */
  function Sort(s: seq<string>): (r: seq<string>)
    ensures Sorted(r)
    ensures multiset(r) == multiset(s)
  {
    if s == [] then []
    else
      assert s == [s[0]] + s[1..];
      Insert(s[0], Sort(s[1..]))
  }
}
