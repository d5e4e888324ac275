/** The regular expressions of the deployment test, each written out as the
    end of the match at a given position, and the scan `re.findall` makes
    with it: the leftmost match first, then the search goes on from the end
    of that match. */
module Patterns {
  import opened Text

  /** The end of the longest run of characters outside `stop` starting at `k`. */
  function RunEnd(s: string, k: nat, stop: set<char>): (e: nat)
    requires k <= |s|
    ensures k <= e <= |s|
    ensures forall j :: k <= j < e ==> s[j] !in stop
    ensures e < |s| ==> s[e] in stop
    decreases |s| - k
  {
    if k == |s| || s[k] in stop then k else RunEnd(s, k + 1, stop)
  }

  /** The first index at or after `k` that does not hold whitespace (`\s*`). */
  function SkipSpace(s: string, k: nat): (e: nat)
    requires k <= |s|
    ensures k <= e <= |s|
    ensures forall j :: k <= j < e ==> IsSpace(s[j])
    ensures e < |s| ==> !IsSpace(s[e])
    decreases |s| - k
  {
    if k == |s| || !IsSpace(s[k]) then k else SkipSpace(s, k + 1)
  }

  // ----- re.findall over a pattern that never matches the empty string -----

  /** `end(i)` is the end of the match starting at `i`, or -1 when the
      pattern does not match there; a match is never empty. */
  predicate Matcher(s: string, end: nat -> int) {
    forall i :: 0 <= i < |s| ==> end(i) == -1 || i < end(i) <= |s|
  }

  /** The matches `re.findall` returns from `from` on: the leftmost match,
      then the matches from its end. */
  function FindAllFrom(s: string, end: nat -> int, from: nat): seq<string>
    requires Matcher(s, end) && from <= |s|
    decreases |s| - from
  {
    if from == |s| then []
    else if end(from) != -1 then [s[from..end(from)]] + FindAllFrom(s, end, end(from))
    else FindAllFrom(s, end, from + 1)
  }

  function FindAll(s: string, end: nat -> int): seq<string>
    requires Matcher(s, end)
  {
    FindAllFrom(s, end, 0)
  }

  /** No match is found exactly when the pattern matches at no position. */
  lemma {:induction false} FindAllFromEmpty(s: string, end: nat -> int, from: nat)
    requires Matcher(s, end) && from <= |s|
    ensures FindAllFrom(s, end, from) == [] <==> forall i :: from <= i < |s| ==> end(i) == -1
    decreases |s| - from
  {
    if from < |s| && end(from) == -1 {
      FindAllFromEmpty(s, end, from + 1);
    }
  }

  /** Every match found is the match at some position. */
  lemma {:induction false} FindAllFromMatches(s: string, end: nat -> int, from: nat)
    requires Matcher(s, end) && from <= |s|
    ensures forall j :: 0 <= j < |FindAllFrom(s, end, from)| ==>
              exists i :: from <= i < |s| && end(i) != -1 && FindAllFrom(s, end, from)[j] == s[i..end(i)]
    decreases |s| - from
  {
    if from < |s| {
      if end(from) != -1 {
        var rest := FindAllFrom(s, end, end(from));
        FindAllFromMatches(s, end, end(from));
        var r := FindAllFrom(s, end, from);
        assert r == [s[from..end(from)]] + rest;
        forall j | 0 <= j < |r|
          ensures exists i :: from <= i < |s| && end(i) != -1 && r[j] == s[i..end(i)]
        {
          if j == 0 {
            assert r[0] == s[from..end(from)];
          } else {
            assert r[j] == rest[j - 1];
            var i :| end(from) <= i < |s| && end(i) != -1 && rest[j - 1] == s[i..end(i)];
          }
        }
      } else {
        FindAllFromMatches(s, end, from + 1);
        var r := FindAllFrom(s, end, from);
        assert r == FindAllFrom(s, end, from + 1);
        forall j | 0 <= j < |r|
          ensures exists i :: from <= i < |s| && end(i) != -1 && r[j] == s[i..end(i)]
        {
          var i :| from + 1 <= i < |s| && end(i) != -1 && r[j] == s[i..end(i)];
        }
      }
    } else {
      assert FindAllFrom(s, end, from) == [];
    }
  }

  lemma FindAllSpec(s: string, end: nat -> int)
    requires Matcher(s, end)
    ensures FindAll(s, end) == [] <==> forall i :: 0 <= i < |s| ==> end(i) == -1
    ensures forall j :: 0 <= j < |FindAll(s, end)| ==>
              exists i :: 0 <= i < |s| && end(i) != -1 && FindAll(s, end)[j] == s[i..end(i)]
  {
    FindAllFromEmpty(s, end, 0);
    FindAllFromMatches(s, end, 0);
  }

  // ----- http://[^\s'"<>]+ -----

  /** The characters that end an insecure link. */
  const UrlStop: set<char> := Whitespace + {'\'', '"', '<', '>'}

  /** A match of `http://[^\s'"<>]+` starts at `i`. */
  predicate HttpLinkAt(s: string, i: nat) {
    IsAt(s, "http://", i) && i + 7 < |s| && s[i + 7] !in UrlStop
  }

  /** The end of the match at `i`, or -1: the run of link characters is
      taken whole. */
  function HttpLinkEnd(s: string, i: nat): (e: int)
    ensures e == -1 <==> !HttpLinkAt(s, i)
    ensures e != -1 ==> i + 8 <= e <= |s|
  {
    if HttpLinkAt(s, i) then RunEnd(s, i + 8, UrlStop) else -1
  }

  function HttpLinkMatcher(s: string): nat -> int {
    (i: nat) => HttpLinkEnd(s, i)
  }

  /** `re.findall(r'http://[^\s\'"<>]+', s)`. */
  function HttpLinks(s: string): seq<string> {
    FindAll(s, HttpLinkMatcher(s))
  }

  /** What every match looks like: `http://` and at least one character, none
      of them a stop character. */
  predicate IsHttpLink(m: string) {
    StartsWith(m, "http://") && |m| > 7 && forall k :: 7 <= k < |m| ==> m[k] !in UrlStop
  }

  /** The link list is empty exactly when no link starts anywhere. */
  lemma HttpLinksEmptyIff(s: string)
    ensures HttpLinks(s) == [] <==> forall i :: 0 <= i < |s| ==> !HttpLinkAt(s, i)
  {
    var end := HttpLinkMatcher(s);
    FindAllFromEmpty(s, end, 0);
    assert forall i :: 0 <= i < |s| ==> (end(i) == -1 <==> !HttpLinkAt(s, i));
  }

  lemma HttpLinkAtIsLink(s: string, i: nat)
    requires HttpLinkAt(s, i)
    ensures IsHttpLink(s[i..HttpLinkEnd(s, i)])
  {
    var m := s[i..HttpLinkEnd(s, i)];
    assert m[..7] == s[i..i + 7];
    assert forall k :: 7 <= k < |m| ==> m[k] == s[i + k];
  }

  /** Every entry of the link list is a whole link. */
  lemma HttpLinksAreLinks(s: string)
    ensures forall j :: 0 <= j < |HttpLinks(s)| ==> IsHttpLink(HttpLinks(s)[j])
  {
    var end := HttpLinkMatcher(s);
    var links := HttpLinks(s);
    FindAllFromMatches(s, end, 0);
    forall j | 0 <= j < |links| ensures IsHttpLink(links[j]) {
      var i :| 0 <= i < |s| && end(i) != -1 && links[j] == s[i..end(i)];
      HttpLinkAtIsLink(s, i);
    }
  }

  // ----- the four secret assignments, matched with re.IGNORECASE -----

  datatype Secret = Password | ApiKey | SecretWord | Token
  {
    /** The regular expression, as the report quotes it. */
    function Pattern(): string {
      match this
      case Password => "password\\s*[:=]\\s*[\"\\'][^\"\\']+[\"\\']"
      case ApiKey => "api[_-]?key\\s*[:=]\\s*[\"\\'][^\"\\']+[\"\\']"
      case SecretWord => "secret\\s*[:=]\\s*[\"\\'][^\"\\']+[\"\\']"
      case Token => "token\\s*[:=]\\s*[\"\\'][^\"\\']+[\"\\']"
    }
  }

  const Secrets: seq<Secret> := [Password, ApiKey, SecretWord, Token]

  /** `c` matches the lower-case ASCII letter `p` under `re.IGNORECASE`:
      its lower-case form is `p`, or it is one of the characters the
      regular-expression engine treats as equivalent (long s for `s`, the
      Kelvin sign for `k`, dotted capital and dotless small i for `i`). */
  predicate FoldEq(c: char, p: char) {
    || LowerChar(c) == p
    || (p == 's' && c == '\U{017F}')
    || (p == 'k' && c == '\U{212A}')
    || (p == 'i' && (c == '\U{0130}' || c == '\U{0131}'))
  }

  /** The lower-case word `w` occurs at `i`, ignoring case. */
  predicate IsAtFold(s: string, w: string, i: nat) {
    i + |w| <= |s| && forall k :: 0 <= k < |w| ==> FoldEq(s[i + k], w[k])
  }

  /** The end of the keyword of `secret`'s pattern matched at `i`, or -1. */
  function KeywordEnd(s: string, i: nat, secret: Secret): (e: int)
    ensures e == -1 || i + 5 <= e <= |s|
  {
    match secret
    case Password => if IsAtFold(s, "password", i) then i + 8 else -1
    case ApiKey =>
      if !IsAtFold(s, "api", i) then -1
      else if i + 3 < |s| && s[i + 3] in {'_', '-'} then
        // with a separator, `key` must follow it: `key` cannot start on the separator
        (if IsAtFold(s, "key", i + 4) then i + 7 else -1)
      else if IsAtFold(s, "key", i + 3) then i + 6
      else -1
    case SecretWord => if IsAtFold(s, "secret", i) then i + 6 else -1
    case Token => if IsAtFold(s, "token", i) then i + 5 else -1
  }

  const Quotes: set<char> := {'"', '\''}

  /** The end of `\s*[:=]\s*["'][^"']+["']` matched from `k`, or -1. The
      classes are disjoint from what precedes them, so the match is unique. */
  function AssignmentEnd(s: string, k: nat): (e: int)
    requires k <= |s|
    ensures e == -1 || (k + 4 <= e <= |s| && s[e - 1] in Quotes)
  {
    var j := SkipSpace(s, k);
    if j < |s| && s[j] in {':', '='} then
      var l := SkipSpace(s, j + 1);
      if l < |s| && s[l] in Quotes then
        var m := RunEnd(s, l + 1, Quotes);
        if l + 1 < m < |s| then m + 1 else -1
      else -1
    else -1
  }

  /** The end of a match of `secret`'s pattern starting at `i`, or -1. */
  function SecretEnd(s: string, i: nat, secret: Secret): (e: int)
    ensures e == -1 || (i + 9 <= e <= |s| && s[e - 1] in Quotes)
  {
    var k := KeywordEnd(s, i, secret);
    if k == -1 then -1 else AssignmentEnd(s, k)
  }

  function SecretMatcher(s: string, secret: Secret): nat -> int {
    (i: nat) => SecretEnd(s, i, secret)
  }

  /** `re.findall(secret.Pattern(), s, re.IGNORECASE)`. */
  function SecretMatches(s: string, secret: Secret): seq<string> {
    FindAll(s, SecretMatcher(s, secret))
  }

  /** No finding exactly when the pattern matches nowhere. */
  lemma SecretMatchesEmptyIff(s: string, secret: Secret)
    ensures SecretMatches(s, secret) == [] <==> forall i :: 0 <= i < |s| ==> SecretEnd(s, i, secret) == -1
  {
    var end := SecretMatcher(s, secret);
    FindAllFromEmpty(s, end, 0);
    assert forall i :: 0 <= i < |s| ==> end(i) == SecretEnd(s, i, secret);
  }

  /** A match is at least nine characters long and ends with a quote. */
  predicate IsSecretMatch(m: string) {
    |m| >= 9 && m[|m| - 1] in Quotes
  }

  lemma SecretEndIsMatch(s: string, i: nat, secret: Secret)
    requires SecretEnd(s, i, secret) != -1
    ensures IsSecretMatch(s[i..SecretEnd(s, i, secret)])
  {
  }

  lemma SecretMatchesShape(s: string, secret: Secret)
    ensures forall j :: 0 <= j < |SecretMatches(s, secret)| ==> IsSecretMatch(SecretMatches(s, secret)[j])
  {
    var end := SecretMatcher(s, secret);
    var found := SecretMatches(s, secret);
    FindAllFromMatches(s, end, 0);
    forall j | 0 <= j < |found| ensures IsSecretMatch(found[j]) {
      var i :| 0 <= i < |s| && end(i) != -1 && found[j] == s[i..end(i)];
      SecretEndIsMatch(s, i, secret);
    }
  }

  // ----- {%.*?%} -----

  /** The end of `.*?%}` matched from `k`: just past the first `%}` at or
      after `k` when no newline comes before it, -1 otherwise. */
  function TagClose(s: string, k: nat): (e: int)
    requires k <= |s|
    ensures e == -1 || (k + 2 <= e <= |s| && IsAt(s, "%}", e - 2))
    decreases |s| - k
  {
    if k + 2 > |s| then -1
    else if IsAt(s, "%}", k) then k + 2
    else if s[k] == '\n' then -1
    else TagClose(s, k + 1)
  }

  /** The end of a match of `{%.*?%}` at `i`, or -1. */
  function LiquidTagEnd(s: string, i: nat): (e: int)
    ensures e == -1 || (i + 4 <= e <= |s| && IsAt(s, "{%", i) && IsAt(s, "%}", e - 2))
  {
    if IsAt(s, "{%", i) then TagClose(s, i + 2) else -1
  }

  function LiquidTagMatcher(s: string): nat -> int {
    (i: nat) => LiquidTagEnd(s, i)
  }

  /** `re.findall(r'{%.*?%}', s)`. */
  function LiquidTags(s: string): seq<string> {
    FindAll(s, LiquidTagMatcher(s))
  }

  lemma LiquidTagEndWellFormed(s: string, i: nat)
    requires LiquidTagEnd(s, i) != -1
    ensures var t := s[i..LiquidTagEnd(s, i)]; StartsWith(t, "{%") && EndsWith(Strip(t), "%}")
  {
    var e := LiquidTagEnd(s, i);
    var t := s[i..e];
    assert t[..2] == s[i..i + 2];
    assert t[|t| - 2..] == s[e - 2..e];
    var ending := "%}";
    assert ending[0] !in Whitespace && ending[1] !in Whitespace;
    StripKeepsEnding(t, ending, Whitespace);
  }

  /** Every tag found opens with `{%` and, even after stripping surrounding
      whitespace, still ends with `%}`: the malformed-tag test never fires. */
  lemma LiquidTagsWellFormed(s: string)
    ensures forall j :: 0 <= j < |LiquidTags(s)| ==>
              StartsWith(LiquidTags(s)[j], "{%") && EndsWith(Strip(LiquidTags(s)[j]), "%}")
  {
    var end := LiquidTagMatcher(s);
    var tags := LiquidTags(s);
    FindAllFromMatches(s, end, 0);
    forall j | 0 <= j < |tags|
      ensures StartsWith(tags[j], "{%") && EndsWith(Strip(tags[j]), "%}")
    {
      var i :| 0 <= i < |s| && end(i) != -1 && tags[j] == s[i..end(i)];
      LiquidTagEndWellFormed(s, i);
    }
  }

  // ----- \[.*?\]\(.*?\) and !\[.*?\]\(.*?\), searched for by the functional test suite -----

  /** No newline in `s[k..e]`: `.` does not match one. */
  predicate OneLine(s: string, k: nat, e: nat)
    requires k <= e <= |s|
  {
    forall j :: k <= j < e ==> s[j] != '\n'
  }

  /** `.*?\)` matches from `k`: a `)` comes before the end of the line. */
  function CloseOnLine(s: string, k: nat): bool
    requires k <= |s|
    decreases |s| - k
  {
    if k == |s| || s[k] == '\n' then false
    else s[k] == ')' || CloseOnLine(s, k + 1)
  }

  /** `.*?\]\(.*?\)` matches from `k`: the lazy `.*?` tries `](` and then a
      `)` on the same line at each position in turn, and cannot step over a
      newline. */
  function LinkTailFrom(s: string, k: nat): bool
    requires k <= |s|
    decreases |s| - k
  {
    if k == |s| || s[k] == '\n' then false
    else (IsAt(s, "](", k) && CloseOnLine(s, k + 2)) || LinkTailFrom(s, k + 1)
  }

  lemma {:induction false} CloseOnLineIff(s: string, k: nat)
    requires k <= |s|
    ensures CloseOnLine(s, k) <==> exists e :: k <= e < |s| && s[e] == ')' && OneLine(s, k, e)
    decreases |s| - k
  {
    if k < |s| && s[k] != '\n' && s[k] != ')' {
      CloseOnLineIff(s, k + 1);
      if CloseOnLine(s, k) {
        var e :| k + 1 <= e < |s| && s[e] == ')' && OneLine(s, k + 1, e);
        assert OneLine(s, k, e);
      }
      if exists e :: k <= e < |s| && s[e] == ')' && OneLine(s, k, e) {
        var e :| k <= e < |s| && s[e] == ')' && OneLine(s, k, e);
        assert OneLine(s, k + 1, e);
      }
    } else if k < |s| && s[k] == ')' {
      assert OneLine(s, k, k);
    }
  }

  /** The tail of a link matches from `k` exactly when `](` and a later `)`
      follow on the same line. */
  lemma {:induction false} LinkTailIff(s: string, k: nat)
    requires k <= |s|
    ensures LinkTailFrom(s, k) <==>
            exists a, e :: k <= a && a + 2 <= e < |s| && IsAt(s, "](", a) && s[e] == ')' && OneLine(s, k, e)
    decreases |s| - k
  {
    if k < |s| && s[k] != '\n' {
      LinkTailIff(s, k + 1);
      if IsAt(s, "](", k) {
        CloseOnLineIff(s, k + 2);
      }
      if LinkTailFrom(s, k) {
        if IsAt(s, "](", k) && CloseOnLine(s, k + 2) {
          var e :| k + 2 <= e < |s| && s[e] == ')' && OneLine(s, k + 2, e);
          assert OneLine(s, k, e);
        } else {
          var a, e :| k + 1 <= a && a + 2 <= e < |s| && IsAt(s, "](", a) && s[e] == ')' && OneLine(s, k + 1, e);
          assert OneLine(s, k, e);
        }
      }
      if exists a, e :: k <= a && a + 2 <= e < |s| && IsAt(s, "](", a) && s[e] == ')' && OneLine(s, k, e) {
        var a, e :| k <= a && a + 2 <= e < |s| && IsAt(s, "](", a) && s[e] == ')' && OneLine(s, k, e);
        assert OneLine(s, k + 1, e);
        if a == k {
          assert OneLine(s, k + 2, e);
        }
      }
    }
  }

  /** `\[.*?\]\(.*?\)` matches at `i`. */
  predicate LinkAt(s: string, i: nat)
    requires i < |s|
  {
    s[i] == '[' && LinkTailFrom(s, i + 1)
  }

  /** `!\[.*?\]\(.*?\)` matches at `i`. */
  predicate ImageAt(s: string, i: nat)
    requires i < |s|
  {
    IsAt(s, "![", i) && LinkTailFrom(s, i + 2)
  }

  /** `bool(re.search(r'\[.*?\]\(.*?\)', s))`. */
  predicate HasLink(s: string) {
    exists i :: 0 <= i < |s| && LinkAt(s, i)
  }

  /** `bool(re.search(r'!\[.*?\]\(.*?\)', s))`. */
  predicate HasImage(s: string) {
    exists i :: 0 <= i < |s| && ImageAt(s, i)
  }

  /** A Markdown link `[text](target)` appears exactly when a `[` is followed
      on the same line by `](` and then by `)`. */
  lemma HasLinkIff(s: string)
    ensures HasLink(s) <==>
            exists i, a, e :: 0 <= i < a && a + 2 <= e < |s| && s[i] == '[' && IsAt(s, "](", a) &&
                              s[e] == ')' && OneLine(s, i, e)
  {
    if HasLink(s) {
      var i :| 0 <= i < |s| && LinkAt(s, i);
      LinkTailIff(s, i + 1);
      var a, e :| i + 1 <= a && a + 2 <= e < |s| && IsAt(s, "](", a) && s[e] == ')' && OneLine(s, i + 1, e);
      assert OneLine(s, i, e);
    }
    if exists i, a, e :: 0 <= i < a && a + 2 <= e < |s| && s[i] == '[' && IsAt(s, "](", a) &&
                         s[e] == ')' && OneLine(s, i, e) {
      var i, a, e :| 0 <= i < a && a + 2 <= e < |s| && s[i] == '[' && IsAt(s, "](", a) &&
                     s[e] == ')' && OneLine(s, i, e);
      assert OneLine(s, i + 1, e);
      LinkTailIff(s, i + 1);
      assert LinkAt(s, i);
    }
  }

  /** Every Markdown image is also a link: the link pattern matches one
      character after the `!`. */
  lemma ImageIsLink(s: string)
    ensures HasImage(s) ==> HasLink(s)
  {
    if HasImage(s) {
      var i :| 0 <= i < |s| && ImageAt(s, i);
      assert s[i..i + 2] == "![";
      assert s[i + 1] == '[';
      assert LinkAt(s, i + 1);
    }
  }
}
