/** The functional test suite (functional_test_suite.py): navigation links,
    page content integrity and Jekyll compatibility, each storing a table of
    result records in the suite object, and a report that turns the records
    into one overall verdict. */
module Functional {
  import opened Text
  import opened Site
  import opened Yaml
  import FrontMatter
  import Paths
  import Patterns

  const NavigationFile := "_data/navigation.yml"
  const PagesDir := "_pages"
  const ConfigFile := "_config.yml"
  const PluginsDir := "_plugins"
  const HomePage := "_pages/about.md"

  /** The plugins the suite accepts on GitHub Pages. */
  const GitHubPagesPlugins: seq<string> := [
    "jekyll-paginate", "jekyll-sitemap", "jekyll-gist",
    "jekyll-feed", "jekyll-redirect-from", "jemoji",
    "jekyll-seo-tag", "jekyll-github-metadata"
  ]

  /** The required pages, by their names with `.md` removed; the file of each
      is `_pages/<name>.md`. */
  const RequiredPages: seq<string> := [
    "about", "news", "publications", "hydro90",
    "honors", "education", "vision", "funfacts", "farewell"
  ]

  const RequiredFields: seq<string> := ["permalink:", "title:", "excerpt:"]

  /** One value of a result table: a record (a Python dict carrying a
      "status"), or a bare message stored under the key "error". */
  datatype TestRecord =
    | NavigationRecord(url: string, filePath: string, fileExists: bool,
                       permalinkMatch: bool, status: Status)
    | MissingPageRecord(status: Status)    // a required page that does not exist
    | ContentRecord(hasFrontMatter: bool, frontMatterValid: bool, hasContent: bool,
                    hasImages: bool, hasLinks: bool, contentLength: nat, status: Status)
    | ConfigRecord(fileExists: bool, plugins: seq<string>, compatiblePlugins: bool, status: Status)
    | ErrorRecord(status: Status)          // an exception was caught while testing
    | CompatibilityRecord(unsupportedFeatures: seq<string>, status: Status)
    | Note(message: string)
  {
    /** `isinstance(r, dict)`. */
    predicate IsDict() {
      !Note?
    }

    /** `isinstance(r, dict) and r.get("status") == "PASS"`. */
    predicate Passes() {
      !Note? && status == Pass
    }
  }

  /** The keys of a table whose records pass. */
  function PassedKeys<K>(m: map<K, TestRecord>): set<K> {
    set k | k in m && m[k].Passes()
  }

  /** The keys of a table that hold records. */
  function RecordKeys<K>(m: map<K, TestRecord>): set<K> {
    set k | k in m && m[k].IsDict()
  }

  lemma SubsetSameSize<K>(a: set<K>, b: set<K>)
    requires a <= b
    ensures |a| <= |b|
    ensures |a| == |b| <==> a == b
  {
    assert b == a + (b - a);
    assert a * (b - a) == {};
    if |a| == |b| {
      assert a * b == a;
      assert |b - a| == 0;
      assert b - a == {};
      assert b <= a by {
        forall x | x in b ensures x in a {
          assert x !in b - a;
        }
      }
    }
  }

  /** `passed == total` over a table of records is "every record passes". */
  lemma AllPassedIff<K>(m: map<K, TestRecord>)
    requires forall k :: k in m ==> m[k].IsDict()
    ensures |PassedKeys(m)| == |m| <==> forall k :: k in m ==> m[k].Passes()
  {
    assert RecordKeys(m) == m.Keys;
    SubsetSameSize(PassedKeys(m), m.Keys);
    if |PassedKeys(m)| == |m| {
      forall k | k in m ensures m[k].Passes() {
        assert k in PassedKeys(m);
      }
    }
  }

  /** The report's `passed == total`, which excludes bare messages from both
      counts, is "every record passes". */
  lemma ReportPassedIff<K>(m: map<K, TestRecord>)
    ensures |PassedKeys(m)| == |RecordKeys(m)| <==>
            forall k :: k in m && m[k].IsDict() ==> m[k].Passes()
  {
    SubsetSameSize(PassedKeys(m), RecordKeys(m));
    if |PassedKeys(m)| == |RecordKeys(m)| {
      forall k | k in m && m[k].IsDict() ensures m[k].Passes() {
        assert k in RecordKeys(m);
      }
    }
  }

  // ----- Navigation links -----

  /** The page a navigation URL is checked against: `/` is the about page;
      any other URL loses its leading and trailing slashes and gains `.md`,
      and `pathlib` joins that under `_pages`, dropping empty and `.`
      components. */
  function NavigationPath(url: string): (path: string)
    ensures url == "/" ==> path == HomePage
    ensures StartsWith(path, "_pages/") && EndsWith(path, ".md")
  {
    if url == "/" then HomePage
    else
      Paths.UnderKeepsEnding(PagesDir, StripChars(url, {'/'}), ".md");
      Paths.Under(PagesDir, StripChars(url, {'/'}) + ".md")
  }

  /** The stored `file_path` is pathlib's: `/a/./b/` is checked against
      `_pages/a/b.md`, the same page as `/a/b/`. */
  lemma NavigationPathDropsDot()
    ensures NavigationPath("/a/./b/") == NavigationPath("/a/b/") == "_pages/a/b.md"
  {
    assert StripChars("/a/./b/", {'/'}) == "a/./b";
    assert StripChars("/a/b/", {'/'}) == "a/b";
    Paths.CollapsedPieces("a", "b.md");
    assert "a/./b" + ".md" == "a" + "/./" + "b.md";
    assert "a/b" + ".md" == "a" + "/" + "b.md";
    Paths.UnderTwo(PagesDir, "a", "b.md");
  }

  /** Slashes around a URL other than `/` do not change the page it maps to. */
  lemma NavigationPathIgnoresSlashes(url: string)
    requires url != "/"
    ensures NavigationPath("/" + url + "/") == NavigationPath(url)
  {
    var s := "/" + url + "/";
    TrimStartSkipsSlash(url);
    assert TrimStart(s, {'/'}) == TrimStart(url + "/", {'/'}) by {
      assert s[1..] == url + "/";
    }
    TrimEndSlashAfterTrimStart(url);
  }

  lemma TrimStartSkipsSlash(url: string)
    ensures TrimStart("/" + url + "/", {'/'}) == TrimStart(url + "/", {'/'})
  {
    assert ("/" + url + "/")[1..] == url + "/";
  }

  /** Trimming a trailing slash off `url + "/"` after trimming its leading
      slashes gives the same as stripping `url`. */
  lemma {:induction false} TrimEndSlashAfterTrimStart(url: string)
    ensures TrimEnd(TrimStart(url + "/", {'/'}), {'/'}) == StripChars(url, {'/'})
    decreases |url|
  {
    var cs := {'/'};
    if |url| > 0 && url[0] == '/' {
      assert (url + "/")[1..] == url[1..] + "/";
      TrimEndSlashAfterTrimStart(url[1..]);
      assert TrimStart(url, cs) == TrimStart(url[1..], cs);
    } else if url == [] {
      assert TrimStart("/", cs) == TrimStart("/"[1..], cs);
      assert "/"[1..] == [];
    } else {
      assert TrimStart(url + "/", cs) == url + "/";
      assert TrimStart(url, cs) == url;
      assert (url + "/")[..|url + "/"| - 1] == url;
    }
  }

  /** `permalink_match`: the page can be read, it has find-based front matter,
      and that front matter contains `permalink: <url>` as a substring. */
  predicate PermalinkMatch(fs: FileSystem, path: string, url: string) {
    && fs.Exists(path)
    && path in fs.text
    && FrontMatter.ByFind(fs.text[path]).Some?
    && Contains(FrontMatter.ByFind(fs.text[path]).value, "permalink: " + url)
  }

  /** The record of one navigation entry, or Raised when its `url` is null:
      `url.strip("/")` then raises an `AttributeError` that nothing catches. */
  function NavigationEntry(fs: FileSystem, item: NavItem): (r: Outcome<TestRecord>)
    ensures r.Raised? <==> item.url.Null?
    ensures r.Returned? ==>
              && r.value.NavigationRecord?
              && (r.value.status == Pass <==> fs.Exists(NavigationPath(item.Url().value)) &&
                                              PermalinkMatch(fs, NavigationPath(item.Url().value), item.Url().value))
              && (r.value.status == Pass || r.value.status == Fail)
  {
    match item.Url()
    case None => Raised
    case Some(url) =>
      var path := NavigationPath(url);
      var fileExists := fs.Exists(path);
      var permalinkMatch := PermalinkMatch(fs, path, url);
      Returned(NavigationRecord(url, path, fileExists, permalinkMatch,
                                if fileExists && permalinkMatch then Pass else Fail))
  }

  lemma SomeUrlNullSnoc(items: seq<NavItem>)
    requires items != []
    ensures SomeUrlNull(items) <==> SomeUrlNull(items[..|items| - 1]) || items[|items| - 1].url.Null?
  {
    var init := items[..|items| - 1];
    assert forall i :: 0 <= i < |init| ==> init[i] == items[i];
  }

  /** The table `test_navigation_links` builds: each entry stored under its
      title (None for a null title), a later entry replacing an earlier one
      with the same title; Raised as soon as an entry has a null `url`. */
  function NavigationTable(fs: FileSystem, items: seq<NavItem>): (r: Outcome<map<Option<string>, TestRecord>>)
    ensures r.Raised? <==> SomeUrlNull(items)
    ensures r.Returned? ==> forall k :: k in r.value ==> r.value[k].NavigationRecord?
  {
    if items == [] then Returned(map[])
    else
      var init, last := items[..|items| - 1], items[|items| - 1];
      SomeUrlNullSnoc(items);
      match (NavigationTable(fs, init), NavigationEntry(fs, last))
      case (Returned(m), Returned(rec)) => Returned(m[last.Title() := rec])
      case _ => Raised
  }

  /** The table's keys are exactly the entries' titles. */
  lemma {:induction false} NavigationTableKeys(fs: FileSystem, items: seq<NavItem>)
    requires !SomeUrlNull(items)
    ensures NavigationTable(fs, items).Returned?
    ensures forall t :: t in NavigationTable(fs, items).value <==>
                          exists i :: 0 <= i < |items| && items[i].Title() == t
  {
    if items != [] {
      var init := items[..|items| - 1];
      assert forall i :: 0 <= i < |init| ==> init[i] == items[i];
      NavigationTableKeys(fs, init);
      var m := NavigationTable(fs, items).value;
      forall t | t in m
        ensures exists i :: 0 <= i < |items| && items[i].Title() == t
      {
        if t != items[|items| - 1].Title() {
          assert t in NavigationTable(fs, init).value;
          var i :| 0 <= i < |init| && init[i].Title() == t;
          assert items[i] == init[i];
        }
      }
      forall t | exists i :: 0 <= i < |items| && items[i].Title() == t
        ensures t in m
      {
        var i :| 0 <= i < |items| && items[i].Title() == t;
        if i < |items| - 1 {
          assert init[i] == items[i];
        }
      }
    }
  }

  /** Under each title the table holds the record of the LAST entry with that
      title. */
  lemma {:induction false} NavigationTableLastWins(fs: FileSystem, items: seq<NavItem>, i: nat)
    requires i < |items| && !SomeUrlNull(items)
    requires forall j :: i < j < |items| ==> items[j].Title() != items[i].Title()
    ensures NavigationTable(fs, items).Returned? && NavigationEntry(fs, items[i]).Returned?
    ensures items[i].Title() in NavigationTable(fs, items).value
    ensures NavigationTable(fs, items).value[items[i].Title()] == NavigationEntry(fs, items[i]).value
  {
    var init := items[..|items| - 1];
    assert forall k :: 0 <= k < |init| ==> init[k] == items[k];
    if i < |items| - 1 {
      forall j | i < j < |init| ensures init[j].Title() != init[i].Title() {
        assert init[j] == items[j];
      }
      NavigationTableLastWins(fs, init, i);
    }
  }

  /** An empty navigation list gives an empty table, so `passed == total`
      holds vacuously. */
  lemma EmptyNavigationPasses(fs: FileSystem)
    ensures NavigationTable(fs, []) == Returned(map[])
    ensures |PassedKeys(NavigationTable(fs, []).value)| == |NavigationTable(fs, []).value|
  {
    assert PassedKeys<Option<string>>(map[]) == {};
  }

  /** `load_navigation_config` followed by the `not nav_config` test:
      Returned(None) when there is no configuration to test (the file is
      missing, or the document is empty or an empty mapping), Raised when
      reading or parsing fails, otherwise the entries of `main`. */
  function LoadNavigation(fs: FileSystem, yaml: Loader): Outcome<Option<seq<NavItem>>> {
    if !fs.Exists(NavigationFile) then Returned(None)
    else if NavigationFile !in fs.text then Raised
    else
      match yaml.navigation(fs.text[NavigationFile])
      case NavMalformed(_) => Raised
      case NavFailed => Raised
      case NavEmpty => Returned(None)
      case NavMainNotList => Raised      // iterating over `main` raises
      case NavMapping(keys, main) =>
        if keys == {} then Returned(None) else Returned(Some(NavMapping(keys, main).Main()))
  }

  // ----- Page content integrity -----

  /** `all(field in front_matter for field in required_fields)`. */
  predicate HasRequiredFields(frontMatter: string) {
    forall i :: 0 <= i < |RequiredFields| ==> Contains(frontMatter, RequiredFields[i])
  }

  /** What a PASS page looks like, judged on its own: front matter closed by a
      second `---`, holding the three required fields, and more than 100
      characters of body after stripping whitespace. */
  predicate WellFormedPage(content: string) {
    && FrontMatter.ByFind(content).Some?
    && HasRequiredFields(FrontMatter.ByFind(content).value)
    && |Strip(Drop(content, FrontMatter.ClosingIndex(content) + 3))| > 100
  }

  function PagePath(name: string): string {
    "_pages/" + name + ".md"
  }

  /** One iteration of `test_page_content_integrity`. `frontMatterEnd` is the
      loop's `front_matter_end` variable as earlier iterations left it: None
      while it has never been assigned. A page without a leading `---` does
      not assign it, so the body slice uses the value of an earlier page, and
      when there is none the `UnboundLocalError` is caught and recorded as
      ERROR. */
  function ContentStep(fs: FileSystem, name: string, frontMatterEnd: Option<int>)
    : (r: (TestRecord, Option<int>))
    requires frontMatterEnd.None? || frontMatterEnd.value >= -1
    ensures r.1.None? || r.1.value >= -1
    ensures r.0.IsDict()
    ensures !fs.Exists(PagePath(name)) ==> r == (MissingPageRecord(Fail), frontMatterEnd)
    ensures fs.Exists(PagePath(name)) && PagePath(name) !in fs.text ==>
              r == (ErrorRecord(Error), frontMatterEnd)
    ensures r.0.status == Pass || r.0.status == Fail || r.0.status == Error
    ensures r.0.ContentRecord? ==>
              && fs.Exists(PagePath(name)) && PagePath(name) in fs.text
              && r.0.contentLength == |fs.text[PagePath(name)]|
              && (r.0.hasImages <==> Patterns.HasImage(fs.text[PagePath(name)]))
              && (r.0.hasLinks <==> Patterns.HasLink(fs.text[PagePath(name)]))
              && (r.0.hasImages ==> r.0.hasLinks)
  {
    var path := PagePath(name);
    if !fs.Exists(path) then
      (MissingPageRecord(Fail), frontMatterEnd)
    else if path !in fs.text then
      (ErrorRecord(Error), frontMatterEnd)
    else
      var content := fs.text[path];
      var hasFrontMatter := StartsWith(content, FrontMatter.Delimiter);
      var fmEnd := if hasFrontMatter then Some(FrontMatter.ClosingIndex(content)) else frontMatterEnd;
      var frontMatterValid :=
        hasFrontMatter && fmEnd.value != -1 && HasRequiredFields(content[3..fmEnd.value]);
      if fmEnd.None? then
        (ErrorRecord(Error), fmEnd)
      else
        var after := if fmEnd.value != -1 then Drop(content, fmEnd.value + 3) else content;
        var hasContent := |Strip(after)| > 100;
        Patterns.ImageIsLink(content);
        (ContentRecord(hasFrontMatter, frontMatterValid, hasContent,
                       Patterns.HasImage(content), Patterns.HasLink(content), |content|,
                       if hasFrontMatter && frontMatterValid && hasContent then Pass else Fail),
         fmEnd)
  }

  /** A page passes exactly when it exists, can be read and is well formed;
      the state left by earlier pages does not matter. */
  lemma ContentPassIff(fs: FileSystem, name: string, frontMatterEnd: Option<int>)
    requires frontMatterEnd.None? || frontMatterEnd.value >= -1
    ensures ContentStep(fs, name, frontMatterEnd).0.status == Pass <==>
            fs.Exists(PagePath(name)) && PagePath(name) in fs.text &&
            WellFormedPage(fs.text[PagePath(name)])
  {
    var path := PagePath(name);
    if fs.Exists(path) && path in fs.text {
      var content := fs.text[path];
      if StartsWith(content, FrontMatter.Delimiter) && FrontMatter.ClosingIndex(content) != -1 {
        FrontMatter.ExtractorsAgree(content);
      }
    }
  }

  /** A readable page without a leading `---` is recorded as ERROR when no
      earlier page assigned `front_matter_end`, and as FAIL otherwise. */
  lemma StaleFrontMatterEnd(fs: FileSystem, name: string, frontMatterEnd: Option<int>)
    requires frontMatterEnd.None? || frontMatterEnd.value >= -1
    requires fs.Exists(PagePath(name)) && PagePath(name) in fs.text
    requires !StartsWith(fs.text[PagePath(name)], FrontMatter.Delimiter)
    ensures ContentStep(fs, name, frontMatterEnd).0.status == Error <==> frontMatterEnd.None?
    ensures ContentStep(fs, name, frontMatterEnd).1 == frontMatterEnd
  {
  }

  /** The table and the final `front_matter_end` after testing `names` in order. */
  function ContentRun(fs: FileSystem, names: seq<string>): (r: (map<string, TestRecord>, Option<int>))
    ensures r.0.Keys == set i | 0 <= i < |names| :: names[i]
    ensures forall k :: k in r.0 ==> r.0[k].IsDict()
    ensures r.1.None? || r.1.value >= -1
  {
    if names == [] then (map[], None)
    else
      var prev := ContentRun(fs, names[..|names| - 1]);
      var name := names[|names| - 1];
      var step := ContentStep(fs, name, prev.1);
      assert forall i :: 0 <= i < |names| - 1 ==> names[..|names| - 1][i] == names[i];
      (prev.0[name := step.0], step.1)
  }

  // ----- Jekyll compatibility -----

  /** `all(plugin in github_pages_plugins for plugin in plugins)`. */
  function PluginsCompatible(plugins: seq<string>): (b: bool)
    ensures b <==> forall i :: 0 <= i < |plugins| ==> plugins[i] in GitHubPagesPlugins
  {
    if plugins == [] then true
    else plugins[0] in GitHubPagesPlugins && PluginsCompatible(plugins[1..])
  }

  /** The "config" record of `test_jekyll_compatibility`. */
  function ConfigEntry(fs: FileSystem, yaml: Loader): (r: TestRecord)
    ensures r.IsDict()
    ensures r.status == Pass <==>
              fs.Exists(ConfigFile) && ConfigFile in fs.text &&
              yaml.config(fs.text[ConfigFile]).ConfigMapping? &&
              forall p :: p in yaml.config(fs.text[ConfigFile]).config.Plugins() ==>
                            p in GitHubPagesPlugins
  {
    if !fs.Exists(ConfigFile) then MissingConfigRecord()
    else if ConfigFile !in fs.text then ErrorRecord(Error)
    else
      match yaml.config(fs.text[ConfigFile])
      case ConfigMapping(c) =>
        var compatible := PluginsCompatible(c.Plugins());
        ConfigRecord(true, c.Plugins(), compatible, if compatible then Pass else Warn)
      case _ => ErrorRecord(Error)   // a loader error, or `.get` on None
  }

  /** `{"exists": False, "status": "FAIL"}`. */
  function MissingConfigRecord(): TestRecord {
    ConfigRecord(false, [], false, Fail)
  }

  /** `iterdir()` on `_plugins` raises: it exists but is no directory. */
  predicate PluginsUnlistable(fs: FileSystem) {
    fs.Exists(PluginsDir) && PluginsDir !in fs.dirs
  }

  /** The unsupported features: custom plugins in a non-empty `_plugins`;
      Raised when `_plugins` is no directory, since nothing catches the
      `NotADirectoryError` of `iterdir()`. */
  function UnsupportedFeatures(fs: FileSystem): (r: Outcome<seq<string>>)
    ensures r.Raised? <==> PluginsUnlistable(fs)
    ensures r.Returned? ==> |r.value| <= 1
    ensures r.Returned? ==> (r.value == [] <==> !(fs.Exists(PluginsDir) && fs.HasEntries(PluginsDir)))
  {
    if !fs.Exists(PluginsDir) then Returned([])
    else if PluginsDir !in fs.dirs then Raised
    else if fs.HasEntries(PluginsDir) then Returned(["Custom plugins in _plugins directory"])
    else Returned([])
  }

  /** The summary `generate_report` stores. */
  datatype Summary = Summary(navPassed: nat, navTotal: nat, contentPassed: nat,
                             contentTotal: nat, overallStatus: Status)

  /** The loop of `test_navigation_links` that fills `test_results`, one
      navigation entry at a time. */
  method BuildNavigationTable(fs: FileSystem, mainNav: seq<NavItem>)
    returns (r: Outcome<map<Option<string>, TestRecord>>)
    ensures r == NavigationTable(fs, mainNav)
  {
    var testResults: map<Option<string>, TestRecord> := map[];
    for i := 0 to |mainNav|
      invariant NavigationTable(fs, mainNav[..i]) == Returned(testResults)
    {
      var title := mainNav[i].Title();
      var url := mainNav[i].Url();
      if url.None? {
        NullUrlRaises(fs, mainNav, i);
        return Raised;
      }
      var path := NavigationPath(url.value);
      var fileExists := fs.Exists(path);
      var permalinkMatch := PermalinkMatch(fs, path, url.value);
      var rec := NavigationRecord(url.value, path, fileExists, permalinkMatch,
                                  if fileExists && permalinkMatch then Pass else Fail);
      NavigationTableStep(fs, mainNav, i, testResults);
      testResults := testResults[title := rec];
    }
    assert mainNav[..|mainNav|] == mainNav;
    r := Returned(testResults);
  }

  /** One more entry with a `url` adds its record under its title. */
  lemma NavigationTableStep(fs: FileSystem, items: seq<NavItem>, i: nat, m: map<Option<string>, TestRecord>)
    requires i < |items| && !items[i].url.Null?
    requires NavigationTable(fs, items[..i]) == Returned(m)
    ensures NavigationTable(fs, items[..i + 1]) == Returned(m[items[i].Title() := NavigationEntry(fs, items[i]).value])
  {
    assert items[..i + 1][..i] == items[..i];
  }

  /** An entry with a null `url` makes the whole table raise. */
  lemma NullUrlRaises(fs: FileSystem, items: seq<NavItem>, i: nat)
    requires i < |items| && items[i].url.Null?
    ensures NavigationTable(fs, items) == Raised
  {
    assert SomeUrlNull(items);
  }

  class FunctionalTestSuite {
    var navigationTests: map<Option<string>, TestRecord>
    var contentTests: map<string, TestRecord>
    var compatibilityTests: map<string, TestRecord>
    var summary: Option<Summary>

    constructor ()
      ensures navigationTests == map[] && contentTests == map[]
      ensures compatibilityTests == map[] && summary == None
    {
      navigationTests := map[];
      contentTests := map[];
      compatibilityTests := map[];
      summary := None;
    }

    /** `test_navigation_links`. */
    method TestNavigationLinks(fs: FileSystem, yaml: Loader) returns (r: Outcome<bool>)
      modifies this
      ensures contentTests == old(contentTests) && compatibilityTests == old(compatibilityTests)
      ensures summary == old(summary)
      ensures LoadNavigation(fs, yaml) == Raised ==>
                r == Raised && navigationTests == old(navigationTests)
      ensures LoadNavigation(fs, yaml) == Returned(None) ==>
                r == Returned(false) &&
                navigationTests == old(navigationTests)[Some("error") := Note("Navigation config not found")]
      ensures LoadNavigation(fs, yaml).Returned? && LoadNavigation(fs, yaml).value.Some? &&
              SomeUrlNull(LoadNavigation(fs, yaml).value.value) ==>
                r == Raised && navigationTests == old(navigationTests)
      ensures LoadNavigation(fs, yaml).Returned? && LoadNavigation(fs, yaml).value.Some? &&
              !SomeUrlNull(LoadNavigation(fs, yaml).value.value) ==>
                var items := LoadNavigation(fs, yaml).value.value;
                && NavigationTable(fs, items).Returned?
                && navigationTests == NavigationTable(fs, items).value
                && (r == Returned(true) <==>
                    forall k :: k in navigationTests ==> navigationTests[k].Passes())
                && r.Returned?
    {
      var config := LoadNavigation(fs, yaml);
      if config.Raised? {
        return Raised;
      }
      if config.value.None? {
        navigationTests := navigationTests[Some("error") := Note("Navigation config not found")];
        return Returned(false);
      }
      var table := BuildNavigationTable(fs, config.value.value);
      if table.Raised? {
        return Raised;
      }
      var testResults := table.value;
      navigationTests := testResults;
      var passed := |PassedKeys(testResults)|;
      var total := |testResults|;
      AllPassedIff(testResults);
      r := Returned(passed == total);
    }

    /** `test_page_content_integrity`. */
    method TestPageContentIntegrity(fs: FileSystem) returns (r: bool)
      modifies this
      ensures navigationTests == old(navigationTests) && compatibilityTests == old(compatibilityTests)
      ensures summary == old(summary)
      ensures !fs.Exists(PagesDir) ==>
                !r && contentTests == old(contentTests)["error" := Note("Pages directory not found")]
      ensures fs.Exists(PagesDir) ==>
                && contentTests == ContentRun(fs, RequiredPages).0
                && (r <==> forall k :: k in contentTests ==> contentTests[k].Passes())
    {
      if !fs.Exists(PagesDir) {
        contentTests := contentTests["error" := Note("Pages directory not found")];
        return false;
      }
      var testResults: map<string, TestRecord> := map[];
      var frontMatterEnd: Option<int> := None;
      for i := 0 to |RequiredPages|
        invariant (testResults, frontMatterEnd) == ContentRun(fs, RequiredPages[..i])
      {
        var name := RequiredPages[i];
        assert RequiredPages[..i + 1][..i] == RequiredPages[..i];
        var step := ContentStep(fs, name, frontMatterEnd);
        testResults := testResults[name := step.0];
        frontMatterEnd := step.1;
      }
      assert RequiredPages[..|RequiredPages|] == RequiredPages;
      contentTests := testResults;
      assert forall k :: k in testResults ==> testResults[k].IsDict();
      AllPassedIff(testResults);
      r := |PassedKeys(testResults)| == |testResults|;
    }

    /** `test_jekyll_compatibility`: records the config check and the custom
        plugin check, and returns only the latter; a `_plugins` that is no
        directory raises before anything is stored. */
    method TestJekyllCompatibility(fs: FileSystem, yaml: Loader) returns (r: Outcome<bool>)
      modifies this
      ensures navigationTests == old(navigationTests) && contentTests == old(contentTests)
      ensures summary == old(summary)
      ensures PluginsUnlistable(fs) ==> r == Raised && compatibilityTests == old(compatibilityTests)
      ensures !PluginsUnlistable(fs) ==>
                && compatibilityTests == map[
                     "config" := ConfigEntry(fs, yaml),
                     "compatibility" := CompatibilityRecord(UnsupportedFeatures(fs).value,
                                          if UnsupportedFeatures(fs).value == [] then Pass else Warn)]
                && (r == Returned(true) <==> !(fs.Exists(PluginsDir) && fs.HasEntries(PluginsDir)))
                && r.Returned?
    {
      var testResults: map<string, TestRecord> := map[];
      testResults := testResults["config" := ConfigEntry(fs, yaml)];
      var unsupported := UnsupportedFeatures(fs);
      if unsupported.Raised? {
        return Raised;
      }
      testResults := testResults["compatibility" :=
        CompatibilityRecord(unsupported.value, if unsupported.value == [] then Pass else Warn)];
      compatibilityTests := testResults;
      r := Returned(|unsupported.value| == 0);
    }

    /** `generate_report`: PASS iff every record of both tables passes; bare
        messages are left out of both counts. */
    method GenerateReport() returns (r: bool)
      modifies this
      ensures navigationTests == old(navigationTests) && contentTests == old(contentTests)
      ensures compatibilityTests == old(compatibilityTests)
      ensures summary.Some?
      ensures summary.value.navPassed <= summary.value.navTotal
      ensures summary.value.contentPassed <= summary.value.contentTotal
      ensures r <==> summary.value.overallStatus == Pass
      ensures r <==> (forall k :: k in navigationTests && navigationTests[k].IsDict() ==>
                                    navigationTests[k].Passes())
                     && (forall k :: k in contentTests && contentTests[k].IsDict() ==>
                                       contentTests[k].Passes())
    {
      var navPassed := |PassedKeys(navigationTests)|;
      var navTotal := |RecordKeys(navigationTests)|;
      var contentPassed := |PassedKeys(contentTests)|;
      var contentTotal := |RecordKeys(contentTests)|;
      ReportPassedIff(navigationTests);
      ReportPassedIff(contentTests);
      SubsetSameSize(PassedKeys(navigationTests), RecordKeys(navigationTests));
      SubsetSameSize(PassedKeys(contentTests), RecordKeys(contentTests));
      var overall := if navPassed == navTotal && contentPassed == contentTotal then Pass else Fail;
      summary := Some(Summary(navPassed, navTotal, contentPassed, contentTotal, overall));
      r := overall == Pass;
    }
  }

  /** The navigation test returns: the file loads and no entry has a null
      `url`. */
  predicate NavigationRuns(fs: FileSystem, yaml: Loader) {
    LoadNavigation(fs, yaml).Returned? &&
    (LoadNavigation(fs, yaml).value.None? || !SomeUrlNull(LoadNavigation(fs, yaml).value.value))
  }

  /** The navigation part of the overall verdict: nothing to count when there
      is no configuration, else every entry's record passes. */
  predicate NavigationOk(fs: FileSystem, yaml: Loader)
    requires NavigationRuns(fs, yaml)
  {
    var loaded := LoadNavigation(fs, yaml).value;
    loaded.None? ||
    (NavigationTable(fs, loaded.value).Returned? &&
     forall k :: k in NavigationTable(fs, loaded.value).value ==> NavigationTable(fs, loaded.value).value[k].Passes())
  }

  /** The content part of the overall verdict. */
  predicate ContentOk(fs: FileSystem) {
    !fs.Exists(PagesDir) ||
    forall k :: k in ContentRun(fs, RequiredPages).0 ==> ContentRun(fs, RequiredPages).0[k].Passes()
  }

  /** `main` of the suite: the process exit status. An exception escaping
      the navigation test or the compatibility test ends the run with status
      1. The resource-link test
      runs between the compatibility test and the report, catches its own
      errors and writes a table the report does not read, so it is not part
      of this model. */
  method RunSuite(fs: FileSystem, yaml: Loader) returns (code: int)
    ensures code == 0 || code == 1
    ensures code == 0 <==>
              NavigationRuns(fs, yaml) && NavigationOk(fs, yaml) && ContentOk(fs) && !PluginsUnlistable(fs)
  {
    var tester := new FunctionalTestSuite();
    var navigation := tester.TestNavigationLinks(fs, yaml);
    if navigation.Raised? {
      return 1;
    }
    var content := tester.TestPageContentIntegrity(fs);
    var compatibility := tester.TestJekyllCompatibility(fs, yaml);
    if compatibility.Raised? {
      return 1;
    }
    var overall := tester.GenerateReport();
    code := if overall then 0 else 1;
  }
}
