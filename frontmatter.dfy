/** The two ways the scripts cut the YAML front matter out of a page: with
    `split('---', 2)` in the navigation verifier, and with `find('---', 3)`
    plus a slice everywhere else. */
module FrontMatter {
  import opened Text
  import opened Site

  const Delimiter := "---"

  /** `content.split('---', 2)[1]` when the content starts with `---`; None
      when it does not. */
  function BySplit(content: string): (r: Option<string>)
    ensures r.Some? <==> StartsWith(content, Delimiter)
  {
    if StartsWith(content, Delimiter) then
      var parts := Split(content, Delimiter, 2);
      SplitKeepsSecondPart(content);
      if |parts| >= 2 then Some(parts[1]) else None
    else None
  }

  /** When the content starts with the delimiter, the split always has a
      second part, so the length test guarding it never fails. */
  lemma SplitKeepsSecondPart(content: string)
    requires StartsWith(content, Delimiter)
    ensures |Split(content, Delimiter, 2)| >= 2
    ensures Split(content, Delimiter, 2)[1] ==
      (var j := Find(content, Delimiter, 3); if j == -1 then content[3..] else content[3..j])
  {
    assert Find(content, Delimiter, 0) == 0;
    assert Split(content, Delimiter, 2) == [content[0..0]] + SplitFrom(content, Delimiter, 3, 1);
  }

  /** The end index of the front matter: `content.find('---', 3)`. */
  function ClosingIndex(content: string): int {
    Find(content, Delimiter, 3)
  }

  /** `content[3:end]` with `end = content.find('---', 3)`, when the content
      starts with `---` and `end != -1`; None otherwise. */
  function ByFind(content: string): (r: Option<string>)
    ensures r.Some? <==> StartsWith(content, Delimiter) && ClosingIndex(content) != -1
    ensures r.Some? ==> !Contains(r.value, Delimiter)
    ensures r.Some? ==> IsAt(content, Delimiter, 3 + |r.value|)
                        && content == Delimiter + r.value + content[3 + |r.value|..]
  {
    if StartsWith(content, Delimiter) && ClosingIndex(content) != -1 then
      var j := ClosingIndex(content);
      NoDelimiterBefore(content, j);
      assert content == content[..3] + content[3..j] + content[j..];
      Some(content[3..j])
    else None
  }

  /** The slice before the first delimiter at or after 3 holds no delimiter. */
  lemma NoDelimiterBefore(content: string, j: int)
    requires 3 <= j && j == Find(content, Delimiter, 3)
    ensures !Contains(content[3..j], Delimiter)
  {
    var f := content[3..j];
    ContainsIff(f, Delimiter);
    forall k: nat | IsAt(f, Delimiter, k)
      ensures false
    {
      assert content[3 + k..3 + k + 3] == f[k..k + 3];
      assert IsAt(content, Delimiter, 3 + k);
    }
  }

  /** With a closing delimiter, both extractors give the same front matter. */
  lemma ExtractorsAgree(content: string)
    requires StartsWith(content, Delimiter) && ClosingIndex(content) != -1
    ensures BySplit(content) == ByFind(content)
    ensures BySplit(content) == Some(content[3..ClosingIndex(content)])
  {
    SplitKeepsSecondPart(content);
  }

  /** Without a closing delimiter, the split-based extractor takes the whole
      rest of the file, while the find-based one finds no front matter. */
  lemma UnclosedFrontMatter(content: string)
    requires StartsWith(content, Delimiter) && ClosingIndex(content) == -1
    ensures BySplit(content) == Some(content[3..])
    ensures ByFind(content) == None
  {
    SplitKeepsSecondPart(content);
  }

  /** Without a leading delimiter neither extractor finds front matter. */
  lemma NoOpeningDelimiter(content: string)
    requires !StartsWith(content, Delimiter)
    ensures BySplit(content) == None && ByFind(content) == None
  {
  }
}
