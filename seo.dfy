/** The SEO part of the performance and SEO test: the SEO plugins and site
    metadata of the configuration, a score of seven factors for every page,
    and the structured-data markers of the layouts and includes. */
module Seo {
  import opened Text
  import opened Site
  import opened Yaml
  import opened Seqs
  import opened Listings
  import opened Performance
  import Paths
  import FrontMatter
  import Captures

  // ----- the SEO configuration -----

  /** The top-level keys of the configuration that count as site metadata. */
  const MetadataFields: seq<string> := ["title", "description", "url", "author"]

  /** The plugin flags, and the metadata fields present, in the order checked. */
  datatype SeoConfig = SeoConfig(seoPlugin: bool, sitemapPlugin: bool, feedPlugin: bool,
                                 siteMetadata: seq<string>)

  const NoSeoConfig := SeoConfig(false, false, false, [])

  function PresentTest(c: Config): string -> bool {
    (field: string) => field in c.keys
  }

  /** The configuration as the SEO test reads it. A missing or unreadable
      file, an error of the loader and an empty document (whose `.get` raises) all
      leave the defaults, as the exception is caught. */
  function SeoConfigOf(fs: FileSystem, loader: Loader): SeoConfig {
    if !fs.Exists(ConfigFile) || ConfigFile !in fs.text then NoSeoConfig
    else
      match loader.config(fs.text[ConfigFile])
      case ConfigMapping(c) =>
        SeoConfig("jekyll-seo-tag" in c.Plugins(), "jekyll-sitemap" in c.Plugins(),
                  "jekyll-feed" in c.Plugins(), Filter(MetadataFields, PresentTest(c)))
      case _ => NoSeoConfig
  }

  predicate SeoConfigPasses(cfg: SeoConfig) {
    cfg.seoPlugin && |cfg.siteMetadata| >= 3
  }

  /** One indicator per metadata field. */
  lemma MetadataCount(c: Config)
    ensures |Filter(MetadataFields, PresentTest(c))| ==
            Indicator("title" in c.keys) + Indicator("description" in c.keys) +
            Indicator("url" in c.keys) + Indicator("author" in c.keys)
  {
    var f := MetadataFields;
    assert f[..0] == [];
    assert f[..1] == f[..0] + [f[0]];
    assert f[..2] == f[..1] + [f[1]];
    assert f[..3] == f[..2] + [f[2]];
    assert f == f[..3] + [f[3]];
    FilterSnoc(f[..0], f[0], PresentTest(c));
    FilterSnoc(f[..1], f[1], PresentTest(c));
    FilterSnoc(f[..2], f[2], PresentTest(c));
    FilterSnoc(f[..3], f[3], PresentTest(c));
  }

  /** No two of the four metadata fields are missing together. */
  predicate NoTwoMissing(keys: set<string>) {
    forall i, j :: 0 <= i < j < |MetadataFields| ==> MetadataFields[i] in keys || MetadataFields[j] in keys
  }

  /** The SEO configuration passes exactly when a readable configuration
      mapping lists `jekyll-seo-tag` among its plugins and misses at most one
      of title, description, url and author. */
  lemma SeoConfigPassIff(fs: FileSystem, loader: Loader)
    ensures SeoConfigPasses(SeoConfigOf(fs, loader)) <==>
            && fs.Exists(ConfigFile) && ConfigFile in fs.text
            && loader.config(fs.text[ConfigFile]).ConfigMapping?
            && "jekyll-seo-tag" in loader.config(fs.text[ConfigFile]).config.Plugins()
            && NoTwoMissing(loader.config(fs.text[ConfigFile]).config.keys)
  {
    if fs.Exists(ConfigFile) && ConfigFile in fs.text && loader.config(fs.text[ConfigFile]).ConfigMapping? {
      var c := loader.config(fs.text[ConfigFile]).config;
      MetadataCount(c);
      var f := MetadataFields;
      assert f[0] == "title" && f[1] == "description" && f[2] == "url" && f[3] == "author";
    }
  }

  lemma MetadataStep(c: Config, i: nat)
    requires i < |MetadataFields|
    ensures Filter(MetadataFields[..i + 1], PresentTest(c)) ==
            Filter(MetadataFields[..i], PresentTest(c)) + (if MetadataFields[i] in c.keys then [MetadataFields[i]] else [])
  {
    assert MetadataFields[..i + 1] == MetadataFields[..i] + [MetadataFields[i]];
    FilterSnoc(MetadataFields[..i], MetadataFields[i], PresentTest(c));
  }

  method ReadSeoConfig(fs: FileSystem, loader: Loader) returns (cfg: SeoConfig)
    ensures cfg == SeoConfigOf(fs, loader)
  {
    cfg := NoSeoConfig;
    if fs.Exists(ConfigFile) && ConfigFile in fs.text {
      var doc := loader.config(fs.text[ConfigFile]);
      if doc.ConfigMapping? {
        var c := doc.config;
        var plugins := c.Plugins();
        var metadata: seq<string> := [];
        for i := 0 to |MetadataFields|
          invariant metadata == Filter(MetadataFields[..i], PresentTest(c))
        {
          MetadataStep(c, i);
          var field := MetadataFields[i];
          if field in c.keys {
            metadata := metadata + [field];
          }
        }
        assert MetadataFields[..|MetadataFields|] == MetadataFields;
        cfg := SeoConfig("jekyll-seo-tag" in plugins, "jekyll-sitemap" in plugins, "jekyll-feed" in plugins, metadata);
      }
    }
  }

  // ----- page-level SEO -----

  datatype SeoScore = SeoScore(hasTitle: bool, hasDescription: bool, hasExcerpt: bool,
                               titleLength: nat, descriptionLength: nat,
                               hasHeadings: bool, hasInternalLinks: bool)

  const DefaultScore := SeoScore(false, false, false, 0, 0, false, false)

  /** `sum(score_factors)`: how many of the seven factors hold; the title
      length counts within 30 to 60 characters and the description length
      within 120 to 160, both bounds included. */
  function Factors(s: SeoScore): nat {
    Indicator(s.hasTitle) + Indicator(s.hasDescription) + Indicator(s.hasExcerpt) +
    Indicator(30 <= s.titleLength <= 60) + Indicator(120 <= s.descriptionLength <= 160) +
    Indicator(s.hasHeadings) + Indicator(s.hasInternalLinks)
  }

  /** A page's entry: its details, the number of factors that hold (the
      score is that number over seven) and its status. */
  datatype PageSeo = PageSeo(details: SeoScore, factors: nat, status: Status)

  function PageRecord(s: SeoScore): PageSeo {
    var n := Factors(s);
    PageSeo(s, n, if n >= 5 then Pass else Warn)
  }

  /** A page passes exactly when at least five of its seven factors hold. */
  lemma PageRecordSpec(s: SeoScore)
    ensures PageRecord(s).factors <= 7
    ensures PageRecord(s).status == Pass <==> PageRecord(s).factors >= 5
    ensures PageRecord(s).status == Pass || PageRecord(s).status == Warn
  {
  }

  const TitleKeys: seq<string> := ["title:"]
  const DescriptionKeys: seq<string> := ["description:", "excerpt:"]

  /** The length of the value `re.search` captures after one of `keys`, or 0
      when the pattern does not match. */
  function ValueLength(fm: string, keys: seq<string>): nat
    requires forall k :: 0 <= k < |keys| ==> |keys[k]| > 0
  {
    match Captures.FieldValue(fm, keys)
    case Some(v) => |v|
    case None => 0
  }

  /** The fields the front matter `fm` sets; the lengths are measured only
      under the substring tests. */
  function FrontMatterScore(fm: string): SeoScore {
    var hasTitle := Contains(fm, "title:");
    var hasDescription := Contains(fm, "description:") || Contains(fm, "excerpt:");
    SeoScore(hasTitle, hasDescription, Contains(fm, "excerpt:"),
             if hasTitle then ValueLength(fm, TitleKeys) else 0,
             if hasDescription then ValueLength(fm, DescriptionKeys) else 0,
             false, false)
  }

  /** The substring tests never hide a match: each length is the length of
      what the pattern captures, or 0 when it captures nothing. */
  lemma LengthsFromPatterns(fm: string)
    ensures FrontMatterScore(fm).titleLength == ValueLength(fm, TitleKeys)
    ensures FrontMatterScore(fm).descriptionLength == ValueLength(fm, DescriptionKeys)
    ensures FrontMatterScore(fm).titleLength > 0 ==> FrontMatterScore(fm).hasTitle
    ensures FrontMatterScore(fm).descriptionLength > 0 ==> FrontMatterScore(fm).hasDescription
  {
    Captures.FieldValueShape(fm, TitleKeys);
    Captures.FieldValueShape(fm, DescriptionKeys);
    if Captures.FieldValue(fm, DescriptionKeys).Some? {
      var k :| 0 <= k < |DescriptionKeys| && Contains(fm, DescriptionKeys[k]);
      assert k == 0 || k == 1;
    }
  }

  /** The end of the run of `#` that starts at `k`. */
  function HashesEnd(s: string, k: nat): (e: nat)
    requires k <= |s|
    ensures k <= e <= |s|
    ensures forall j :: k <= j < e ==> s[j] == '#'
    ensures e < |s| ==> s[e] != '#'
    decreases |s| - k
  {
    if k == |s| || s[k] != '#' then k else HashesEnd(s, k + 1)
  }

  /** `^#+\s` in multi-line mode matches at `i`: a line starts there with a
      run of `#` that whitespace follows (`#` itself is not whitespace, so
      only the end of the run can be followed by it). */
  predicate HeadingAt(s: string, i: nat) {
    i < |s| && (i == 0 || s[i - 1] == '\n') && s[i] == '#' &&
    HashesEnd(s, i) < |s| && IsSpace(s[HashesEnd(s, i)])
  }

  predicate HasHeading(s: string) {
    exists i :: 0 <= i < |s| && HeadingAt(s, i)
  }

  /** No line break in `s[from..to]`: `.` matches any character but `\n`. */
  predicate OnOneLine(s: string, from: nat, to: nat) {
    from <= to <= |s| && forall m :: from <= m < to ==> s[m] != '\n'
  }

  /** `\[.*?\]\(/.*?\)` matches from `i` to `k`, with `](/` at `j`. */
  predicate InternalLinkAt(s: string, i: nat, j: nat, k: nat) {
    i < j && j + 3 <= k < |s| && s[i] == '[' && IsAt(s, "](/", j) && s[k] == ')' &&
    OnOneLine(s, i + 1, j) && OnOneLine(s, j + 3, k)
  }

  predicate HasInternalLink(s: string) {
    exists i, j, k | 0 <= i < j < k < |s| :: InternalLinkAt(s, i, j, k)
  }

  /** What one iteration of the page loop computes, and the value the loop's
      `front_matter_end` has after it. */
  datatype PageScan = PageScan(score: SeoScore, frontMatterEnd: Option<int>)

  predicate EndBound(frontMatterEnd: Option<int>) {
    frontMatterEnd.None? || frontMatterEnd.value >= -1
  }

  /** One iteration of the page loop. `frontMatterEnd` is `front_matter_end`
      as earlier iterations left it, None while it has never been assigned.
      A page without a leading `---` does not assign it, so its body is cut
      at the end of an earlier page's front matter; when there is none the
      `UnboundLocalError` is caught and only the defaults remain. A page that
      cannot be read keeps the defaults. */
  function ScorePage(fs: FileSystem, name: string, frontMatterEnd: Option<int>): (r: PageScan)
    requires EndBound(frontMatterEnd)
    ensures EndBound(r.frontMatterEnd)
  {
    match ContentOf(fs, PagesDir, name)
    case None => PageScan(DefaultScore, frontMatterEnd)
    case Some(content) =>
      var hasOpening := StartsWith(content, FrontMatter.Delimiter);
      var fmEnd := if hasOpening then Some(FrontMatter.ClosingIndex(content)) else frontMatterEnd;
      var head := if hasOpening && fmEnd.value != -1 then FrontMatterScore(content[3..fmEnd.value]) else DefaultScore;
      if fmEnd.None? then PageScan(head, fmEnd)
      else
        var body := if fmEnd.value != -1 then Drop(content, fmEnd.value + 3) else content;
        PageScan(head.(hasHeadings := HasHeading(body), hasInternalLinks := HasInternalLink(body)), fmEnd)
  }

  /** `has_excerpt` implies `has_description`, whatever the page holds. */
  lemma ExcerptImpliesDescription(fs: FileSystem, name: string, frontMatterEnd: Option<int>)
    requires EndBound(frontMatterEnd)
    ensures ScorePage(fs, name, frontMatterEnd).score.hasExcerpt ==>
            ScorePage(fs, name, frontMatterEnd).score.hasDescription
  {
  }

  /** The front-matter fields are read only from a closed front matter: it
      supplies exactly the first five fields. */
  lemma ScoreFromFrontMatter(fs: FileSystem, name: string, frontMatterEnd: Option<int>)
    requires EndBound(frontMatterEnd)
    ensures var s := ScorePage(fs, name, frontMatterEnd).score;
            match ContentOf(fs, PagesDir, name).Some? && FrontMatter.ByFind(ContentOf(fs, PagesDir, name).value).Some?
            case true =>
              var fm := FrontMatter.ByFind(ContentOf(fs, PagesDir, name).value).value;
              && s.hasTitle == Contains(fm, "title:") && s.hasExcerpt == Contains(fm, "excerpt:")
              && s.hasDescription == (Contains(fm, "description:") || Contains(fm, "excerpt:"))
              && s.titleLength == ValueLength(fm, TitleKeys)
              && s.descriptionLength == ValueLength(fm, DescriptionKeys)
            case false =>
              !s.hasTitle && !s.hasDescription && !s.hasExcerpt && s.titleLength == 0 && s.descriptionLength == 0
  {
    match ContentOf(fs, PagesDir, name)
    case None =>
    case Some(content) =>
      if FrontMatter.ByFind(content).Some? {
        LengthsFromPatterns(FrontMatter.ByFind(content).value);
      }
  }

  /** A page without a closed front matter holds at most its heading and its
      link factor, so it never passes. */
  lemma PassNeedsFrontMatter(fs: FileSystem, name: string, frontMatterEnd: Option<int>)
    requires EndBound(frontMatterEnd)
    ensures PageRecord(ScorePage(fs, name, frontMatterEnd).score).status == Pass ==>
            ContentOf(fs, PagesDir, name).Some? && FrontMatter.ByFind(ContentOf(fs, PagesDir, name).value).Some?
  {
    ScoreFromFrontMatter(fs, name, frontMatterEnd);
  }

  /** A readable page without a leading `---` keeps `front_matter_end` as it
      was; when no earlier page assigned it, the page scores nothing, and
      otherwise its body is what follows the earlier page's end index. */
  lemma StaleFrontMatterEnd(fs: FileSystem, name: string, frontMatterEnd: Option<int>)
    requires EndBound(frontMatterEnd)
    requires ContentOf(fs, PagesDir, name).Some?
    requires !StartsWith(ContentOf(fs, PagesDir, name).value, FrontMatter.Delimiter)
    ensures ScorePage(fs, name, frontMatterEnd).frontMatterEnd == frontMatterEnd
    ensures frontMatterEnd.None? ==> ScorePage(fs, name, frontMatterEnd).score == DefaultScore
    ensures frontMatterEnd.Some? && frontMatterEnd.value != -1 ==>
            var body := Drop(ContentOf(fs, PagesDir, name).value, frontMatterEnd.value + 3);
            ScorePage(fs, name, frontMatterEnd).score ==
            DefaultScore.(hasHeadings := HasHeading(body), hasInternalLinks := HasInternalLink(body))
  {
  }

  // ----- the table of pages -----

  /** `page_seo_scores`: a dictionary keyed by page stem, its keys in the
      order they were first inserted. */
  datatype PageTable = PageTable(keys: seq<string>, pages: map<string, PageSeo>)
  {
    ghost predicate Valid() {
      Distinct(keys) && forall k :: k in pages <==> k in keys
    }
  }

  /** `table[key] = value`: a new key goes last, an old one keeps its place. */
  function Put(t: PageTable, key: string, value: PageSeo): (r: PageTable)
    requires t.Valid()
    ensures r.Valid()
    ensures r.pages == t.pages[key := value]
  {
    if key in t.pages then PageTable(t.keys, t.pages[key := value])
    else
      assert forall i, j :: 0 <= i < j < |t.keys + [key]| ==> (t.keys + [key])[i] != (t.keys + [key])[j] by {
        forall i, j | 0 <= i < j < |t.keys + [key]| ensures (t.keys + [key])[i] != (t.keys + [key])[j] {
          if j == |t.keys| {
            assert (t.keys + [key])[i] == t.keys[i];
          }
        }
      }
      PageTable(t.keys + [key], t.pages[key := value])
  }

  predicate WellScored(p: PageSeo) {
    p == PageRecord(p.details)
  }

  datatype PagesState = PagesState(table: PageTable, frontMatterEnd: Option<int>)

  /** The table and `front_matter_end` after scoring `names` in order. */
  function PagesRun(fs: FileSystem, names: seq<string>): (r: PagesState)
    ensures r.table.Valid() && EndBound(r.frontMatterEnd)
    ensures forall k :: k in r.table.pages ==> WellScored(r.table.pages[k])
    ensures r.table.pages.Keys == set i | 0 <= i < |names| :: Paths.Stem(names[i])
  {
    if names == [] then PagesState(PageTable([], map[]), None)
    else
      var prev := PagesRun(fs, names[..|names| - 1]);
      var name := names[|names| - 1];
      var scan := ScorePage(fs, name, prev.frontMatterEnd);
      assert forall i :: 0 <= i < |names| - 1 ==> names[..|names| - 1][i] == names[i];
      PagesState(Put(prev.table, Paths.Stem(name), PageRecord(scan.score)), scan.frontMatterEnd)
  }

  /** The sum of the factors over the pages `keys`. */
  function FactorSum(keys: seq<string>, pages: map<string, PageSeo>): nat
    requires forall i :: 0 <= i < |keys| ==> keys[i] in pages
  {
    if keys == [] then 0 else FactorSum(keys[..|keys| - 1], pages) + pages[keys[|keys| - 1]].factors
  }

  /** `average_score > 0.7` in exact arithmetic: the mean of `factors / 7`
      over the pages is above 7/10, that is, ten times the sum of the factors
      exceeds 49 times the number of pages. */
  predicate AverageAbove(t: PageTable)
    requires t.Valid()
  {
    |t.keys| > 0 && 10 * FactorSum(t.keys, t.pages) > 49 * |t.keys|
  }

  predicate AllPagesPass(t: PageTable) {
    forall k :: k in t.pages ==> t.pages[k].status == Pass
  }

  lemma {:induction false} FactorSumAtMost(keys: seq<string>, pages: map<string, PageSeo>)
    requires forall i :: 0 <= i < |keys| ==> keys[i] in pages && pages[keys[i]].factors <= 4
    ensures FactorSum(keys, pages) <= 4 * |keys|
  {
    if keys != [] {
      FactorSumAtMost(keys[..|keys| - 1], pages);
    }
  }

  /** An average above 0.7 needs a page with at least five factors, that is,
      a passing page. */
  lemma AverageNeedsPassingPage(t: PageTable)
    requires t.Valid()
    requires forall k :: k in t.pages ==> WellScored(t.pages[k])
    ensures AverageAbove(t) ==> exists k :: k in t.pages && t.pages[k].status == Pass
  {
    if AverageAbove(t) && forall k :: k in t.pages ==> t.pages[k].status != Pass {
      forall i | 0 <= i < |t.keys| ensures t.keys[i] in t.pages && t.pages[t.keys[i]].factors <= 4 {
        PageRecordSpec(t.pages[t.keys[i]].details);
      }
      FactorSumAtMost(t.keys, t.pages);
      assert false;
    }
  }

  /** Scoring one more page stores its record under its stem. */
  lemma PagesRunStep(fs: FileSystem, names: seq<string>, i: nat)
    requires i < |names|
    ensures var prev := PagesRun(fs, names[..i]);
            var scan := ScorePage(fs, names[i], prev.frontMatterEnd);
            PagesRun(fs, names[..i + 1]) ==
              PagesState(Put(prev.table, Paths.Stem(names[i]), PageRecord(scan.score)), scan.frontMatterEnd)
  {
    assert names[..i + 1][..i] == names[..i];
  }

  method ScorePages(fs: FileSystem, names: seq<string>) returns (table: PageTable)
    ensures table == PagesRun(fs, names).table
  {
    table := PageTable([], map[]);
    var frontMatterEnd: Option<int> := None;
    for i := 0 to |names|
      invariant PagesState(table, frontMatterEnd) == PagesRun(fs, names[..i])
    {
      PagesRunStep(fs, names, i);
      var scan := ScorePage(fs, names[i], frontMatterEnd);
      frontMatterEnd := scan.frontMatterEnd;
      var key := Paths.Stem(names[i]);
      if key in table.pages {
        table := PageTable(table.keys, table.pages[key := PageRecord(scan.score)]);
      } else {
        table := Put(table, key, PageRecord(scan.score));
      }
    }
    assert names[..|names|] == names;
  }

  // ----- structured data -----

  datatype StructuredData = StructuredData(jsonLd: bool, microdata: bool, openGraph: bool, twitterCards: bool)
  {
    function Count(): (n: nat)
      ensures n <= 4
    {
      Indicator(jsonLd) + Indicator(microdata) + Indicator(openGraph) + Indicator(twitterCards)
    }
  }

  predicate JsonLd(c: string) { Contains(c, "application/ld+json") }
  predicate Microdata(c: string) { Contains(c, "itemscope") || Contains(c, "itemtype") }
  predicate OpenGraph(c: string) { Contains(c, "property=\"og:") }
  predicate TwitterCards(c: string) { Contains(c, "name=\"twitter:") }

  /** One flag held over the HTML files of the layouts, then of the includes. */
  predicate InTemplates(fs: FileSystem, listing: Listing, p: string -> bool) {
    FoundIn(fs, LayoutsDir, DirGlob(fs, listing, LayoutsDir, ".html"), p) ||
    FoundIn(fs, IncludesDir, DirGlob(fs, listing, IncludesDir, ".html"), p)
  }

  function StructuredDataOf(fs: FileSystem, listing: Listing): StructuredData {
    StructuredData(InTemplates(fs, listing, JsonLd), InTemplates(fs, listing, Microdata),
                   InTemplates(fs, listing, OpenGraph), InTemplates(fs, listing, TwitterCards))
  }

  predicate StructuredPasses(d: StructuredData) {
    d.Count() >= 2
  }

  /** The flags of one file added to what earlier files set. */
  function AddFile(d: StructuredData, c: string): StructuredData {
    StructuredData(d.jsonLd || JsonLd(c), d.microdata || Microdata(c),
                   d.openGraph || OpenGraph(c), d.twitterCards || TwitterCards(c))
  }

  /** The flags `d` with those the readable files `names` of `dir` set. */
  predicate ScannedFrom(d: StructuredData, d0: StructuredData, fs: FileSystem, dir: string, names: seq<string>) {
    && d.jsonLd == (d0.jsonLd || FoundIn(fs, dir, names, JsonLd))
    && d.microdata == (d0.microdata || FoundIn(fs, dir, names, Microdata))
    && d.openGraph == (d0.openGraph || FoundIn(fs, dir, names, OpenGraph))
    && d.twitterCards == (d0.twitterCards || FoundIn(fs, dir, names, TwitterCards))
  }

  lemma ScanStep(d: StructuredData, d0: StructuredData, fs: FileSystem, dir: string, names: seq<string>, i: nat)
    requires i < |names| && ScannedFrom(d, d0, fs, dir, names[..i])
    ensures ScannedFrom(match ContentOf(fs, dir, names[i]) case Some(c) => AddFile(d, c) case None => d,
                        d0, fs, dir, names[..i + 1])
  {
    FoundInStep(fs, dir, names, i, JsonLd);
    FoundInStep(fs, dir, names, i, Microdata);
    FoundInStep(fs, dir, names, i, OpenGraph);
    FoundInStep(fs, dir, names, i, TwitterCards);
  }

  method ScanStructuredData(d0: StructuredData, fs: FileSystem, dir: string, names: seq<string>)
    returns (d: StructuredData)
    ensures ScannedFrom(d, d0, fs, dir, names)
  {
    d := d0;
    for i := 0 to |names|
      invariant ScannedFrom(d, d0, fs, dir, names[..i])
    {
      ScanStep(d, d0, fs, dir, names, i);
      var content := ContentOf(fs, dir, names[i]);
      if content.Some? {
        d := AddFile(d, content.value);
      }
    }
    assert names[..|names|] == names;
  }

  // ----- the SEO test -----

  datatype SeoResults = SeoResults(
    config: SeoConfig, configStatus: Status,
    pages: PageTable, pagesStatus: Status,
    structured: StructuredData, structuredStatus: Status)

  function SeoResultsOf(config: SeoConfig, pages: PageTable, structured: StructuredData): SeoResults {
    SeoResults(config, if SeoConfigPasses(config) then Pass else Warn,
               pages, if AllPagesPass(pages) then Pass else Warn,
               structured, if StructuredPasses(structured) then Pass else Warn)
  }

  function SeoTests(fs: FileSystem, listing: Listing, loader: Loader): SeoResults {
    SeoResultsOf(SeoConfigOf(fs, loader), PagesRun(fs, DirGlob(fs, listing, PagesDir, ".md")).table,
                 StructuredDataOf(fs, listing))
  }

  /** The verdict `test_seo_optimization` returns. */
  predicate SeoPasses(r: SeoResults)
    requires r.pages.Valid()
  {
    r.config.seoPlugin && AverageAbove(r.pages) && r.structured.Count() >= 1
  }

  /** The three SEO checks in the order `test_seo_optimization` runs them:
      the configuration, the pages, then the layouts and the includes. */
  method SeoOptimization(fs: FileSystem, listing: Listing, loader: Loader) returns (res: SeoResults)
    ensures res == SeoTests(fs, listing, loader) && res.pages.Valid()
  {
    var config := ReadSeoConfig(fs, loader);
    var pages := ScorePages(fs, DirGlob(fs, listing, PagesDir, ".md"));
    var none := StructuredData(false, false, false, false);
    var layouts := ScanStructuredData(none, fs, LayoutsDir, DirGlob(fs, listing, LayoutsDir, ".html"));
    var structured := ScanStructuredData(layouts, fs, IncludesDir, DirGlob(fs, listing, IncludesDir, ".html"));
    res := SeoResultsOf(config, pages, structured);
  }

  /** The SEO test passes only with the SEO plugin in a readable
      configuration mapping, a passing page and a structured-data marker;
      without pages the page check passes but the test does not. */
  lemma SeoVerdict(fs: FileSystem, loader: Loader, names: seq<string>, structured: StructuredData)
    ensures var r := SeoResultsOf(SeoConfigOf(fs, loader), PagesRun(fs, names).table, structured);
            SeoPasses(r) ==>
              && fs.Exists(ConfigFile) && ConfigFile in fs.text
              && loader.config(fs.text[ConfigFile]).ConfigMapping?
              && "jekyll-seo-tag" in loader.config(fs.text[ConfigFile]).config.Plugins()
              && (exists k :: k in r.pages.pages && r.pages.pages[k].status == Pass)
              && structured.Count() >= 1
    ensures var r := SeoResultsOf(SeoConfigOf(fs, loader), PagesRun(fs, names).table, structured);
            names == [] ==> r.pagesStatus == Pass && !SeoPasses(r)
  {
    AverageNeedsPassingPage(PagesRun(fs, names).table);
  }
}
