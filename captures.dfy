/** `re.findall` over a pattern with one capture group, which returns the
    captured text of each match, and the patterns of the resource validator
    and the SEO test written out as the capture found at a given position. */
module Captures {
  import opened Text
  import opened Patterns
  import opened Site

  /** The match at a position: the captured span `[start, stop)` and the
      end of the whole match, or no match there. */
  datatype Capture = NoCapture | Capture(start: nat, stop: nat, end: nat)

  /** `at(i)` is the match starting at `i`; a match is never empty and its
      group lies inside it. */
  predicate CaptureMatcher(s: string, at: nat -> Capture) {
    forall i :: 0 <= i < |s| ==>
      at(i).NoCapture? || (i <= at(i).start <= at(i).stop <= at(i).end <= |s| && i < at(i).end)
  }

  /** The groups `re.findall` returns from `from` on: the leftmost match,
      then the matches from its end. */
  function CapturesFrom(s: string, at: nat -> Capture, from: nat): seq<string>
    requires CaptureMatcher(s, at) && from <= |s|
    decreases |s| - from
  {
    if from == |s| then []
    else if at(from).Capture? then
      [s[at(from).start..at(from).stop]] + CapturesFrom(s, at, at(from).end)
    else CapturesFrom(s, at, from + 1)
  }

  function CapturesOf(s: string, at: nat -> Capture): seq<string>
    requires CaptureMatcher(s, at)
  {
    CapturesFrom(s, at, 0)
  }

  /** What holds of the group of every match holds of every group returned. */
  lemma {:induction false} CapturesFromAll(s: string, at: nat -> Capture, from: nat, P: string -> bool)
    requires CaptureMatcher(s, at) && from <= |s|
    requires forall i :: 0 <= i < |s| && at(i).Capture? ==> P(s[at(i).start..at(i).stop])
    ensures forall j :: 0 <= j < |CapturesFrom(s, at, from)| ==> P(CapturesFrom(s, at, from)[j])
    decreases |s| - from
  {
    if from < |s| {
      if at(from).Capture? {
        CapturesFromAll(s, at, at(from).end, P);
        var rest := CapturesFrom(s, at, at(from).end);
        var r := CapturesFrom(s, at, from);
        assert r == [s[at(from).start..at(from).stop]] + rest;
        assert forall j :: 1 <= j < |r| ==> r[j] == rest[j - 1];
      } else {
        CapturesFromAll(s, at, from + 1, P);
      }
    }
  }

  /** No group is returned exactly when the pattern matches nowhere. */
  lemma {:induction false} CapturesFromEmpty(s: string, at: nat -> Capture, from: nat)
    requires CaptureMatcher(s, at) && from <= |s|
    ensures CapturesFrom(s, at, from) == [] <==> forall i :: from <= i < |s| ==> at(i).NoCapture?
    decreases |s| - from
  {
    if from < |s| && at(from).NoCapture? {
      CapturesFromEmpty(s, at, from + 1);
    }
  }

  /** The group of `re.search`: that of the leftmost match, if any. */
  function Search(s: string, at: nat -> Capture): Option<string>
    requires CaptureMatcher(s, at)
  {
    var all := CapturesOf(s, at);
    if all == [] then None else Some(all[0])
  }

  /** `re.search` finds a group exactly when the pattern matches somewhere. */
  lemma SearchSome(s: string, at: nat -> Capture)
    requires CaptureMatcher(s, at)
    ensures Search(s, at).Some? <==> exists i :: 0 <= i < |s| && at(i).Capture?
  {
    CapturesFromEmpty(s, at, 0);
  }

  /** The first group returned is the group of some match. */
  lemma {:induction false} CapturesFromFirst(s: string, at: nat -> Capture, from: nat)
    requires CaptureMatcher(s, at) && from <= |s|
    ensures CapturesFrom(s, at, from) != [] ==>
            exists i :: from <= i < |s| && at(i).Capture? && CapturesFrom(s, at, from)[0] == s[at(i).start..at(i).stop]
    decreases |s| - from
  {
    if from < |s| && at(from).NoCapture? {
      CapturesFromFirst(s, at, from + 1);
    }
  }

  /** The group `re.search` finds is the group of a match. */
  lemma SearchFirst(s: string, at: nat -> Capture)
    requires CaptureMatcher(s, at)
    ensures Search(s, at).Some? ==>
            exists i :: 0 <= i < |s| && at(i).Capture? && Search(s, at).value == s[at(i).start..at(i).stop]
  {
    CapturesFromFirst(s, at, 0);
  }

  // ----- attr="([^"]*<ext>)" -----

  const NoQuote: set<char> := {'"'}

  /** The match of `<prefix>([^"]*<ext>)"` at `i`, where `prefix` ends with
      the opening quote: the group runs to the next quote, so it is a match
      exactly when the text before that quote ends with `ext`. */
  function QuotedRefAt(s: string, i: nat, prefix: string, ext: string): (c: Capture)
    requires |prefix| > 0
    ensures c.Capture? ==> i < c.start <= c.stop < c.end <= |s|
    ensures c.Capture? ==> EndsWith(s[c.start..c.stop], ext) && '"' !in s[c.start..c.stop]
  {
    if !IsAt(s, prefix, i) then NoCapture
    else
      var start := i + |prefix|;
      var q := RunEnd(s, start, NoQuote);
      if q < |s| && EndsWith(s[start..q], ext) then Capture(start, q, q + 1) else NoCapture
  }

  function QuotedRefMatcher(s: string, prefix: string, ext: string): nat -> Capture
    requires |prefix| > 0
  {
    (i: nat) => QuotedRefAt(s, i, prefix, ext)
  }

  /** `re.findall(<prefix> + r'([^"]*' + <ext> + r')"', s)`. */
  function QuotedRefs(s: string, prefix: string, ext: string): seq<string>
    requires |prefix| > 0
  {
    CapturesOf(s, QuotedRefMatcher(s, prefix, ext))
  }

  /** Every reference found ends with the extension and holds no quote. */
  lemma QuotedRefsShape(s: string, prefix: string, ext: string)
    requires |prefix| > 0
    ensures forall j :: 0 <= j < |QuotedRefs(s, prefix, ext)| ==>
              EndsWith(QuotedRefs(s, prefix, ext)[j], ext) && '"' !in QuotedRefs(s, prefix, ext)[j]
  {
    var P := (r: string) => EndsWith(r, ext) && '"' !in r;
    CapturesFromAll(s, QuotedRefMatcher(s, prefix, ext), 0, P);
  }

  // ----- !\[.*?\]\(([^)]+)\) -----

  const NoCloseParen: set<char> := {')'}

  /** The rest of a markdown image from `j`, inside the alternative text:
      the lazy `.*?` tries `](`, a non-empty run of non-`)` characters and
      `)` at each position in turn, and cannot step over a newline. */
  function ImageLinkFrom(s: string, j: nat): (c: Capture)
    requires j <= |s|
    ensures c.Capture? ==> j + 2 <= c.start < c.stop < c.end <= |s|
    ensures c.Capture? ==> forall k :: c.start <= k < c.stop ==> s[k] != ')'
    decreases |s| - j
  {
    if j + 2 > |s| then NoCapture
    else if IsAt(s, "](", j) && j + 2 < RunEnd(s, j + 2, NoCloseParen) < |s| then
      Capture(j + 2, RunEnd(s, j + 2, NoCloseParen), RunEnd(s, j + 2, NoCloseParen) + 1)
    else if s[j] == '\n' then NoCapture
    else ImageLinkFrom(s, j + 1)
  }

  function MarkdownImageAt(s: string, i: nat): (c: Capture)
    ensures c.Capture? ==> i < c.start < c.stop < c.end <= |s|
    ensures c.Capture? ==> forall k :: c.start <= k < c.stop ==> s[k] != ')'
  {
    if IsAt(s, "![", i) then ImageLinkFrom(s, i + 2) else NoCapture
  }

  function MarkdownImageMatcher(s: string): nat -> Capture {
    (i: nat) => MarkdownImageAt(s, i)
  }

  /** `re.findall(r'!\[.*?\]\(([^)]+)\)', s)`. */
  function MarkdownImages(s: string): seq<string> {
    CapturesOf(s, MarkdownImageMatcher(s))
  }

  /** A markdown image target is never empty and never holds `)`. */
  lemma MarkdownImagesShape(s: string)
    ensures forall j :: 0 <= j < |MarkdownImages(s)| ==>
              |MarkdownImages(s)[j]| > 0 && ')' !in MarkdownImages(s)[j]
  {
    var P := (r: string) => |r| > 0 && ')' !in r;
    var at := MarkdownImageMatcher(s);
    forall i | 0 <= i < |s| && at(i).Capture? ensures P(s[at(i).start..at(i).stop]) {
      var c := at(i);
      assert forall k :: 0 <= k < c.stop - c.start ==> s[c.start..c.stop][k] == s[c.start + k];
    }
    CapturesFromAll(s, at, 0, P);
  }

  // ----- <img[^>]+src="([^"]+)" -----

  const NoCloseAngle: set<char> := {'>'}

  /** `[^>]+` has taken the tag up to `p`; it gives back one character at a
      time until `src="`, a non-empty run of non-quote characters and a
      quote follow. */
  function SrcFrom(s: string, i: nat, p: nat): (c: Capture)
    ensures c.Capture? ==> i + 10 <= c.start <= p + 5 && c.start < c.stop < c.end <= |s|
    ensures c.Capture? ==> '"' !in s[c.start..c.stop]
    decreases p
  {
    if p < i + 5 then NoCapture
    else if IsAt(s, "src=\"", p) && p + 5 < RunEnd(s, p + 5, NoQuote) < |s| then
      Capture(p + 5, RunEnd(s, p + 5, NoQuote), RunEnd(s, p + 5, NoQuote) + 1)
    else SrcFrom(s, i, p - 1)
  }

  /** The match at `i`: `<img`, then the greedy `[^>]+` runs to the first `>`
      and gives characters back from there. */
  function ImgSrcAt(s: string, i: nat): (c: Capture)
    ensures c.Capture? ==> i < c.start < c.stop < c.end <= |s|
    ensures c.Capture? ==> '"' !in s[c.start..c.stop]
  {
    if IsAt(s, "<img", i) then SrcFrom(s, i, RunEnd(s, i + 4, NoCloseAngle)) else NoCapture
  }

  function ImgSrcMatcher(s: string): nat -> Capture {
    (i: nat) => ImgSrcAt(s, i)
  }

  /** `re.findall(r'<img[^>]+src="([^"]+)"', s)`. */
  function ImgSources(s: string): seq<string> {
    CapturesOf(s, ImgSrcMatcher(s))
  }

  /** An image source is never empty and never holds a quote. */
  lemma ImgSourcesShape(s: string)
    ensures forall j :: 0 <= j < |ImgSources(s)| ==>
              |ImgSources(s)[j]| > 0 && '"' !in ImgSources(s)[j]
  {
    var P := (r: string) => |r| > 0 && '"' !in r;
    CapturesFromAll(s, ImgSrcMatcher(s), 0, P);
  }

  // ----- <script[^>]*src=["\']([^"\']+)["\'] -----

  /** `[^>]*` has taken the tag up to `p`; it gives back one character at a
      time until `src=`, a quote, a non-empty run of non-quote characters and
      a quote follow (the quotes need not be of the same kind). */
  function ScriptSrcFrom(s: string, i: nat, p: nat): (c: Capture)
    requires i + 7 <= p
    ensures c.Capture? ==> i + 12 <= c.start <= p + 5 && c.start < c.stop < c.end <= |s|
    ensures c.Capture? ==> forall j :: c.start <= j < c.stop ==> s[j] !in Quotes
    decreases p
  {
    if IsAt(s, "src=", p) && p + 4 < |s| && s[p + 4] in Quotes && p + 5 < RunEnd(s, p + 5, Quotes) < |s| then
      Capture(p + 5, RunEnd(s, p + 5, Quotes), RunEnd(s, p + 5, Quotes) + 1)
    else if p == i + 7 then NoCapture
    else ScriptSrcFrom(s, i, p - 1)
  }

  /** The match at `i`: `<script`, then the greedy `[^>]*` runs to the first
      `>` and gives characters back from there. */
  function ScriptSrcAt(s: string, i: nat): (c: Capture)
    ensures c.Capture? ==> i < c.start < c.stop < c.end <= |s|
    ensures c.Capture? ==> forall j :: c.start <= j < c.stop ==> s[j] !in Quotes
  {
    if IsAt(s, "<script", i) then ScriptSrcFrom(s, i, RunEnd(s, i + 7, NoCloseAngle)) else NoCapture
  }

  function ScriptSrcMatcher(s: string): nat -> Capture {
    (i: nat) => ScriptSrcAt(s, i)
  }

  /** `re.findall(r'<script[^>]*src=["\']([^"\']+)["\']', s)`. */
  function ScriptSources(s: string): seq<string> {
    CapturesOf(s, ScriptSrcMatcher(s))
  }

  /** A script source is never empty and never holds a quote. */
  lemma ScriptSourcesShape(s: string)
    ensures forall j :: 0 <= j < |ScriptSources(s)| ==>
              |ScriptSources(s)[j]| > 0 && forall k :: 0 <= k < |ScriptSources(s)[j]| ==> ScriptSources(s)[j][k] !in Quotes
  {
    var P := (r: string) => |r| > 0 && forall k :: 0 <= k < |r| ==> r[k] !in Quotes;
    CapturesFromAll(s, ScriptSrcMatcher(s), 0, P);
  }

  // ----- <key>:\s*["\']?([^"\'\n]+)["\']? -----

  const ValueStop: set<char> := {'"', '\'', '\n'}

  /** The optional closing quote after a value ending at `e`. */
  function AfterQuote(s: string, e: nat): (r: nat)
    requires e <= |s|
    ensures e <= r <= |s|
  {
    if e < |s| && s[e] in Quotes then e + 1 else e
  }

  /** `\s*["\']?([^"\'\n]+)["\']?` after the key, which ends at `p`: the greedy
      `\s*` has run to `w`; at each position the optional quote is tried
      first, and `\s*` gives back one character at a time until a non-empty
      value follows. */
  function FieldValueFrom(s: string, p: nat, w: nat): (c: Capture)
    requires p <= w <= |s|
    ensures c.Capture? ==> p <= c.start < c.stop <= c.end <= |s|
    ensures c.Capture? ==> forall k :: c.start <= k < c.stop ==> s[k] !in ValueStop
    decreases w - p
  {
    if w < |s| && s[w] in Quotes && w + 1 < RunEnd(s, w + 1, ValueStop) then
      Capture(w + 1, RunEnd(s, w + 1, ValueStop), AfterQuote(s, RunEnd(s, w + 1, ValueStop)))
    else if w < RunEnd(s, w, ValueStop) then
      Capture(w, RunEnd(s, w, ValueStop), AfterQuote(s, RunEnd(s, w, ValueStop)))
    else if w == p then NoCapture
    else FieldValueFrom(s, p, w - 1)
  }

  /** The match of `<key>:\s*["\']?([^"\'\n]+)["\']?` at `i`, where `key` is one
      of the alternatives, tried in order. */
  function FieldAt(s: string, i: nat, keys: seq<string>): (c: Capture)
    requires forall k :: 0 <= k < |keys| ==> |keys[k]| > 0
    ensures c.Capture? ==> i < c.start < c.stop <= c.end <= |s|
    ensures c.Capture? ==> exists k :: 0 <= k < |keys| && IsAt(s, keys[k], i)
    ensures c.Capture? ==> forall k :: c.start <= k < c.stop ==> s[k] !in ValueStop
  {
    if keys == [] then NoCapture
    else if IsAt(s, keys[0], i) && FieldValueFrom(s, i + |keys[0]|, SkipSpace(s, i + |keys[0]|)).Capture? then
      FieldValueFrom(s, i + |keys[0]|, SkipSpace(s, i + |keys[0]|))
    else
      var c := FieldAt(s, i, keys[1..]);
      assert c.Capture? ==> exists k :: 0 <= k < |keys| && IsAt(s, keys[k], i) by {
        if c.Capture? {
          var k :| 0 <= k < |keys[1..]| && IsAt(s, keys[1..][k], i);
          assert keys[k + 1] == keys[1..][k];
        }
      }
      c
  }

  function FieldMatcher(s: string, keys: seq<string>): nat -> Capture
    requires forall k :: 0 <= k < |keys| ==> |keys[k]| > 0
  {
    (i: nat) => FieldAt(s, i, keys)
  }

  /** `re.search(r'(?:<key>|...):\s*["\']?([^"\'\n]+)["\']?', s).group(1)`. */
  function FieldValue(s: string, keys: seq<string>): Option<string>
    requires forall k :: 0 <= k < |keys| ==> |keys[k]| > 0
  {
    Search(s, FieldMatcher(s, keys))
  }

  /** A value is found only where some key occurs, and it is never empty. */
  lemma FieldValueShape(s: string, keys: seq<string>)
    requires forall k :: 0 <= k < |keys| ==> |keys[k]| > 0
    ensures FieldValue(s, keys).Some? ==> |FieldValue(s, keys).value| > 0
    ensures FieldValue(s, keys).Some? ==> exists k :: 0 <= k < |keys| && Contains(s, keys[k])
  {
    var at := FieldMatcher(s, keys);
    if FieldValue(s, keys).Some? {
      SearchFirst(s, at);
      var i :| 0 <= i < |s| && at(i).Capture? && FieldValue(s, keys).value == s[at(i).start..at(i).stop];
      var k :| 0 <= k < |keys| && IsAt(s, keys[k], i);
      ContainsIff(s, keys[k]);
    }
  }
}
