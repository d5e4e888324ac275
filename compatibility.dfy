/** The GitHub Pages compatibility checker
    (github_pages_compatibility_check.py): four checks that each return a
    list of labelled issues, and a `main` whose result is the number of
    ERROR issues. */
module Compatibility {
  import opened Text
  import opened Site
  import opened Yaml
  import opened Issues
  import Paths

  const ConfigFile := "_config.yml"
  const Gemfile := "Gemfile"
  const PagesDir := "_pages"
  const NavigationFile := "_data/navigation.yml"

  const RequiredFields: seq<string> := ["title", "description"]

  /** The plugins this checker knows GitHub Pages to support. */
  const GitHubPagesPlugins: seq<string> := [
    "jekyll-coffeescript", "jekyll-default-layout", "jekyll-gist",
    "jekyll-github-metadata", "jekyll-optional-front-matter", "jekyll-paginate",
    "jekyll-readme-index", "jekyll-redirect-from", "jekyll-relative-links",
    "jekyll-sass-converter", "jekyll-sitemap", "jekyll-feed", "jekyll-seo-tag",
    "jemoji"
  ]

  // ----- _config.yml -----

  function FieldWarning(field: string): string {
    WarningIssue("Missing required field '" + field + "' in _config.yml")
  }

  function PluginWarning(plugin: string): string {
    WarningIssue("Plugin '" + plugin + "' may not be supported by GitHub Pages")
  }

  /** One warning per required field the configuration lacks, in field order. */
  function FieldWarnings(keys: set<string>, fields: seq<string>): seq<string> {
    if fields == [] then []
    else
      var last := fields[|fields| - 1];
      FieldWarnings(keys, fields[..|fields| - 1]) + (if last !in keys then [FieldWarning(last)] else [])
  }

  /** The plugins that are not on the list, in their order. */
  function Unsupported(plugins: seq<string>): (r: seq<string>)
    ensures |r| <= |plugins|
    ensures forall x :: x in r <==> x in plugins && x !in GitHubPagesPlugins
  {
    if plugins == [] then []
    else
      var last := plugins[|plugins| - 1];
      var init := plugins[..|plugins| - 1];
      assert plugins == init + [last];
      Unsupported(init) + (if last !in GitHubPagesPlugins then [last] else [])
  }

  /** The warnings of the plugin loop. */
  function PluginWarnings(plugins: seq<string>): seq<string> {
    if plugins == [] then []
    else
      var last := plugins[|plugins| - 1];
      PluginWarnings(plugins[..|plugins| - 1]) + (if last !in GitHubPagesPlugins then [PluginWarning(last)] else [])
  }

  /** One warning per required field missing, each a WARNING. */
  lemma {:induction false} FieldWarningsSpec(keys: set<string>, fields: seq<string>)
    ensures |FieldWarnings(keys, fields)| == |set i | 0 <= i < |fields| && fields[i] !in keys|
    ensures forall i :: 0 <= i < |FieldWarnings(keys, fields)| ==>
              StartsWith(FieldWarnings(keys, fields)[i], "WARNING")
  {
    if fields != [] {
      var n := |fields| - 1;
      var init := fields[..n];
      FieldWarningsSpec(keys, init);
      Labels("Missing required field '" + fields[n] + "' in _config.yml");
      var a := set i | 0 <= i < |init| && init[i] !in keys;
      var b := set i | 0 <= i < |fields| && fields[i] !in keys;
      if fields[n] !in keys {
        assert b == a + {n};
        assert n !in a;
      } else {
        assert b == a;
      }
    }
  }

  /** One warning per unsupported plugin, in plugin order: the i-th warning
      names the i-th unsupported plugin. */
  lemma {:induction false} PluginWarningsSpec(plugins: seq<string>)
    ensures |PluginWarnings(plugins)| == |Unsupported(plugins)|
    ensures forall i :: 0 <= i < |PluginWarnings(plugins)| ==>
              PluginWarnings(plugins)[i] == PluginWarning(Unsupported(plugins)[i])
  {
    if plugins != [] {
      PluginWarningsSpec(plugins[..|plugins| - 1]);
    }
  }

  /** The `url` warning. */
  function UrlWarning(keys: set<string>): seq<string> {
    if "url" !in keys then [WarningIssue("'url' field missing - recommended for GitHub Pages")] else []
  }

  /** The `baseurl` note. */
  function BaseurlInfo(keys: set<string>): seq<string> {
    if "baseurl" !in keys then [InfoIssue("'baseurl' field missing - should be empty string for user pages")] else []
  }

  /** `check_config_yml`. */
  function ConfigCheck(fs: FileSystem, yaml: Loader): Outcome<seq<string>> {
    if !fs.Exists(ConfigFile) then Returned([ErrorIssue("_config.yml not found")])
    else if ConfigFile !in fs.text then Raised
    else
      match yaml.config(fs.text[ConfigFile])
      case ConfigMalformed(detail) => Returned([ErrorIssue("Invalid YAML in _config.yml: " + detail)])
      case ConfigFailed => Raised  // only a YAMLError is caught
      case ConfigEmpty => Raised   // `'title' not in None` raises TypeError
      case ConfigMapping(c) =>
        Returned(FieldWarnings(c.keys, RequiredFields) + PluginWarnings(c.Plugins()) +
                 UrlWarning(c.keys) + BaseurlInfo(c.keys))
  }

  /** A missing configuration is one ERROR and nothing more. */
  lemma MissingConfig(fs: FileSystem, yaml: Loader)
    requires !fs.Exists(ConfigFile)
    ensures ConfigCheck(fs, yaml).Returned?
    ensures |ConfigCheck(fs, yaml).value| == 1 && |Errors(ConfigCheck(fs, yaml).value)| == 1
  {
    Labels("_config.yml not found");
  }

  lemma PluginWarningsAreWarnings(plugins: seq<string>)
    ensures forall i :: 0 <= i < |PluginWarnings(plugins)| ==> StartsWith(PluginWarnings(plugins)[i], "WARNING")
  {
    PluginWarningsSpec(plugins);
    forall i | 0 <= i < |PluginWarnings(plugins)|
      ensures StartsWith(PluginWarnings(plugins)[i], "WARNING")
    {
      Labels("Plugin '" + Unsupported(plugins)[i] + "' may not be supported by GitHub Pages");
    }
  }

  /** A parsed configuration yields no ERROR: only warnings for the missing
      fields, the unsupported plugins and a missing `url`, and one note for a
      missing `baseurl`. */
  lemma ParsedConfigWarnsOnly(keys: set<string>, plugins: seq<string>)
    ensures
      var issues := FieldWarnings(keys, RequiredFields) + PluginWarnings(plugins) +
                    UrlWarning(keys) + BaseurlInfo(keys);
      && Errors(issues) == []
      && |Infos(issues)| == (if "baseurl" in keys then 0 else 1)
  {
    var f := FieldWarnings(keys, RequiredFields);
    var pl := PluginWarnings(plugins);
    var u := UrlWarning(keys);
    var b := BaseurlInfo(keys);
    FieldWarningsQuiet(keys);
    PluginWarningsQuiet(plugins);
    UrlWarningQuiet(keys);
    BaseurlInfoCount(keys);
    QuietPrefix(f, pl, u, b);
  }

  lemma FieldWarningsQuiet(keys: set<string>)
    ensures Errors(FieldWarnings(keys, RequiredFields)) == [] && Infos(FieldWarnings(keys, RequiredFields)) == []
  {
    FieldWarningsSpec(keys, RequiredFields);
    WarningsOnly(FieldWarnings(keys, RequiredFields));
  }

  lemma PluginWarningsQuiet(plugins: seq<string>)
    ensures Errors(PluginWarnings(plugins)) == [] && Infos(PluginWarnings(plugins)) == []
  {
    PluginWarningsAreWarnings(plugins);
    WarningsOnly(PluginWarnings(plugins));
  }

  lemma UrlWarningQuiet(keys: set<string>)
    ensures Errors(UrlWarning(keys)) == [] && Infos(UrlWarning(keys)) == []
  {
    Labels("'url' field missing - recommended for GitHub Pages");
    WarningsOnly(UrlWarning(keys));
  }

  lemma BaseurlInfoCount(keys: set<string>)
    ensures Errors(BaseurlInfo(keys)) == [] && |Infos(BaseurlInfo(keys))| == (if "baseurl" in keys then 0 else 1)
  {
    Labels("'baseurl' field missing - should be empty string for user pages");
  }

  /** Three lists without errors or notes, then one without errors. */
  lemma QuietPrefix(f: seq<string>, pl: seq<string>, u: seq<string>, b: seq<string>)
    requires Errors(f) == [] && Infos(f) == [] && Errors(pl) == [] && Infos(pl) == []
    requires Errors(u) == [] && Infos(u) == [] && Errors(b) == []
    ensures Errors(f + pl + u + b) == [] && Infos(f + pl + u + b) == Infos(b)
  {
    WithPrefixAppend(f, pl, "ERROR");
    WithPrefixAppend(f + pl, u, "ERROR");
    WithPrefixAppend(f + pl + u, b, "ERROR");
    WithPrefixAppend(f, pl, "INFO");
    WithPrefixAppend(f + pl, u, "INFO");
    WithPrefixAppend(f + pl + u, b, "INFO");
  }

  /** The loop over the required fields. */
  method CollectFieldWarnings(keys: set<string>, fields: seq<string>) returns (issues: seq<string>)
    ensures issues == FieldWarnings(keys, fields)
  {
    issues := [];
    for i := 0 to |fields|
      invariant issues == FieldWarnings(keys, fields[..i])
    {
      assert fields[..i + 1][..i] == fields[..i];
      if fields[i] !in keys {
        issues := issues + [FieldWarning(fields[i])];
      }
    }
    assert fields[..|fields|] == fields;
  }

  /** The loop over the configured plugins. */
  method CollectPluginWarnings(plugins: seq<string>) returns (issues: seq<string>)
    ensures issues == PluginWarnings(plugins)
  {
    issues := [];
    for i := 0 to |plugins|
      invariant issues == PluginWarnings(plugins[..i])
    {
      assert plugins[..i + 1][..i] == plugins[..i];
      if plugins[i] !in GitHubPagesPlugins {
        issues := issues + [PluginWarning(plugins[i])];
      }
    }
    assert plugins[..|plugins|] == plugins;
  }

  /** The loop form of `check_config_yml`. */
  method CheckConfigYml(fs: FileSystem, yaml: Loader) returns (r: Outcome<seq<string>>)
    ensures r == ConfigCheck(fs, yaml)
  {
    if !fs.Exists(ConfigFile) {
      return Returned([ErrorIssue("_config.yml not found")]);
    }
    if ConfigFile !in fs.text {
      return Raised;
    }
    var doc := yaml.config(fs.text[ConfigFile]);
    if doc.ConfigMalformed? {
      return Returned([ErrorIssue("Invalid YAML in _config.yml: " + doc.detail)]);
    }
    if doc.ConfigFailed? || doc.ConfigEmpty? {
      return Raised;
    }
    var config := doc.config;
    var issues := CollectFieldWarnings(config.keys, RequiredFields);
    var pluginIssues := CollectPluginWarnings(config.Plugins());
    issues := issues + pluginIssues;
    if "url" !in config.keys {
      issues := issues + [WarningIssue("'url' field missing - recommended for GitHub Pages")];
    }
    assert issues == FieldWarnings(config.keys, RequiredFields) + pluginIssues + UrlWarning(config.keys);
    if "baseurl" !in config.keys {
      issues := issues + [InfoIssue("'baseurl' field missing - should be empty string for user pages")];
    }
    assert issues == FieldWarnings(config.keys, RequiredFields) + PluginWarnings(config.Plugins()) +
                     UrlWarning(config.keys) + BaseurlInfo(config.keys);
    assert doc == ConfigMapping(config);
    r := Returned(issues);
  }

  // ----- Gemfile -----

  /** `re.search(r'gem\s+["\']<name>["\']', content)`: `gem`, at least one
      whitespace character, a quote of either kind, the name, a quote. */
  predicate GemDeclared(content: string, name: string) {
    exists i, j | 0 <= i < j < |content| ::
      && IsAt(content, "gem", i)
      && i + 3 < j
      && (forall k | i + 3 <= k < j :: IsSpace(content[k]))
      && content[j] in {'"', '\''}
      && IsAt(content, name, j + 1)
      && j + 1 + |name| < |content|
      && content[j + 1 + |name|] in {'"', '\''}
  }

  /** The gems GitHub Pages does not build, with the pattern text each
      warning quotes. */
  const UnsupportedGems: seq<(string, string)> := [
    ("jekyll-archives", "gem\\s+[\"\\']jekyll-archives[\"\\']"),
    ("jekyll-admin", "gem\\s+[\"\\']jekyll-admin[\"\\']")
  ]

  function GemWarnings(content: string, gems: seq<(string, string)>): seq<string> {
    if gems == [] then []
    else
      var last := gems[|gems| - 1];
      GemWarnings(content, gems[..|gems| - 1]) +
      (if GemDeclared(content, last.0)
       then [WarningIssue("Unsupported gem found matching pattern: " + last.1)] else [])
  }

  lemma {:induction false} GemWarningsAreWarnings(content: string, gems: seq<(string, string)>)
    ensures |GemWarnings(content, gems)| <= |gems|
    ensures forall i :: 0 <= i < |GemWarnings(content, gems)| ==>
              StartsWith(GemWarnings(content, gems)[i], "WARNING")
  {
    if gems != [] {
      GemWarningsAreWarnings(content, gems[..|gems| - 1]);
      Labels("Unsupported gem found matching pattern: " + gems[|gems| - 1].1);
    }
  }

  /** `check_gemfile`. */
  function GemfileCheck(fs: FileSystem): Outcome<seq<string>> {
    if !fs.Exists(Gemfile) then Returned([WarningIssue("Gemfile not found")])
    else if Gemfile !in fs.text then Raised
    else
      var content := fs.text[Gemfile];
      Returned((if !Contains(content, "github-pages")
                then [WarningIssue("'github-pages' gem not found in Gemfile")] else []) +
               GemWarnings(content, UnsupportedGems))
  }

  method CheckGemfile(fs: FileSystem) returns (r: Outcome<seq<string>>)
    ensures r == GemfileCheck(fs)
  {
    if !fs.Exists(Gemfile) {
      return Returned([WarningIssue("Gemfile not found")]);
    }
    if Gemfile !in fs.text {
      return Raised;
    }
    var content := fs.text[Gemfile];
    var issues: seq<string> := [];
    if !Contains(content, "github-pages") {
      issues := issues + [WarningIssue("'github-pages' gem not found in Gemfile")];
    }
    var gemIssues: seq<string> := [];
    for i := 0 to |UnsupportedGems|
      invariant gemIssues == GemWarnings(content, UnsupportedGems[..i])
    {
      assert UnsupportedGems[..i + 1][..i] == UnsupportedGems[..i];
      if GemDeclared(content, UnsupportedGems[i].0) {
        gemIssues := gemIssues + [WarningIssue("Unsupported gem found matching pattern: " + UnsupportedGems[i].1)];
      }
    }
    assert UnsupportedGems[..|UnsupportedGems|] == UnsupportedGems;
    assert issues == (if !Contains(content, "github-pages")
                      then [WarningIssue("'github-pages' gem not found in Gemfile")] else []);
    r := Returned(issues + gemIssues);
  }

  /** The Gemfile check reports warnings only. */
  lemma GemfileWarnsOnly(fs: FileSystem)
    requires GemfileCheck(fs).Returned?
    ensures forall i :: 0 <= i < |GemfileCheck(fs).value| ==> StartsWith(GemfileCheck(fs).value[i], "WARNING")
  {
    Labels("Gemfile not found");
    Labels("'github-pages' gem not found in Gemfile");
    if fs.Exists(Gemfile) {
      GemWarningsAreWarnings(fs.text[Gemfile], UnsupportedGems);
    }
  }

  // ----- _pages structure -----

  /** Only URLs that start with `/` and are not `/` itself are checked. */
  predicate CheckedUrl(url: string) {
    StartsWith(url, "/") && url != "/"
  }

  /** The expected page of a checked URL: `url.strip('/')` + `.md` joined
      under `_pages` by `pathlib`, which drops empty and `.` components. */
  function ExpectedPage(url: string): (path: string)
    ensures StartsWith(path, PagesDir + "/") && EndsWith(path, ".md")
  {
    Paths.UnderKeepsEnding(PagesDir, StripChars(url, {'/'}), ".md");
    Paths.Under(PagesDir, StripChars(url, {'/'}) + ".md")
  }

  /** The path the missing-page ERROR prints is pathlib's: `/a//b/` expects
      `_pages/a/b.md`, the same page as `/a/b/`. */
  lemma ExpectedPageCollapsesSlashes()
    ensures ExpectedPage("/a//b/") == ExpectedPage("/a/b/") == "_pages/a/b.md"
  {
    assert StripChars("/a//b/", {'/'}) == "a//b";
    assert StripChars("/a/b/", {'/'}) == "a/b";
    Paths.CollapsedPieces("a", "b.md");
    assert "a//b" + ".md" == "a" + "//" + "b.md";
    assert "a/b" + ".md" == "a" + "/" + "b.md";
    Paths.UnderTwo(PagesDir, "a", "b.md");
  }

  /** `item.get('title')` as the message prints it: an absent or null title
      is None. */
  function TitleText(item: NavItem): string {
    if item.title.Str? then item.title.value else "None"
  }

  function MissingPageMessage(item: NavItem, url: string): string {
    "Navigation item '" + TitleText(item) + "' points to '" + url +
    "' but no corresponding page found at " + ExpectedPage(url)
  }

  /** The entry's URL is checked and its expected page is absent. */
  predicate PageMissing(fs: FileSystem, item: NavItem) {
    item.Url().Some? && CheckedUrl(item.Url().value) && !fs.Exists(ExpectedPage(item.Url().value))
  }

  /** The issue one navigation entry contributes. */
  function PageIssue(fs: FileSystem, item: NavItem): seq<string> {
    if PageMissing(fs, item) then [ErrorIssue(MissingPageMessage(item, item.Url().value))] else []
  }

  function PageIssues(fs: FileSystem, items: seq<NavItem>): seq<string> {
    if items == [] then []
    else PageIssues(fs, items[..|items| - 1]) + PageIssue(fs, items[|items| - 1])
  }

  /** One ERROR per entry whose URL is checked and whose page is absent, in
      entry order.  */
  lemma {:induction false} PageIssuesAreErrors(fs: FileSystem, items: seq<NavItem>)
    ensures |PageIssues(fs, items)| <= |items|
    ensures forall i :: 0 <= i < |PageIssues(fs, items)| ==> StartsWith(PageIssues(fs, items)[i], "ERROR")
  {
    if items != [] {
      PageIssuesAreErrors(fs, items[..|items| - 1]);
      if PageMissing(fs, items[|items| - 1]) {
        Labels(MissingPageMessage(items[|items| - 1], items[|items| - 1].Url().value));
      }
    }
  }

  /** There is no page-structure issue exactly when every checked URL has
      its page. */
  lemma {:induction false} PageIssuesEmptyIff(fs: FileSystem, items: seq<NavItem>)
    ensures PageIssues(fs, items) == [] <==> forall i :: 0 <= i < |items| ==> !PageMissing(fs, items[i])
  {
    if items != [] {
      var n := |items| - 1;
      var init := items[..n];
      PageIssuesEmptyIff(fs, init);
      assert PageIssues(fs, items) == PageIssues(fs, init) + PageIssue(fs, items[n]);
      assert forall i :: 0 <= i < n ==> items[i] == init[i];
    }
  }

  /** `check_pages_structure`. Only a YAML error is caught: another error
      of the loader raises, an empty
      navigation document makes `'main' in None` raise, and so does an entry
      with a null `url`. */
  function PagesCheck(fs: FileSystem, yaml: Loader): Outcome<seq<string>> {
    if !fs.Exists(PagesDir) then Returned([WarningIssue("_pages directory not found")])
    else if !fs.Exists(NavigationFile) then Returned([])
    else if NavigationFile !in fs.text then Raised
    else
      match yaml.navigation(fs.text[NavigationFile])
      case NavMalformed(detail) => Returned([ErrorIssue("Invalid YAML in navigation.yml: " + detail)])
      case NavFailed => Raised           // only a YAMLError is caught
      case NavEmpty => Raised
      case NavMainNotList => Raised      // a TypeError or AttributeError, which is no YAMLError
      case NavMapping(keys, main) =>
        var items := NavMapping(keys, main).Main();
        if SomeUrlNull(items) then Raised else Returned(PageIssues(fs, items))
  }

  lemma PageIssuesStep(fs: FileSystem, items: seq<NavItem>, i: nat)
    requires i < |items|
    ensures PageIssues(fs, items[..i + 1]) == PageIssues(fs, items[..i]) + PageIssue(fs, items[i])
  {
    assert items[..i + 1][..i] == items[..i];
  }

  method CheckPagesStructure(fs: FileSystem, yaml: Loader) returns (r: Outcome<seq<string>>)
    ensures r == PagesCheck(fs, yaml)
  {
    if !fs.Exists(PagesDir) {
      return Returned([WarningIssue("_pages directory not found")]);
    }
    if !fs.Exists(NavigationFile) {
      return Returned([]);
    }
    if NavigationFile !in fs.text {
      return Raised;
    }
    var doc := yaml.navigation(fs.text[NavigationFile]);
    if doc.NavMalformed? {
      return Returned([ErrorIssue("Invalid YAML in navigation.yml: " + doc.detail)]);
    }
    if doc.NavFailed? || doc.NavEmpty? || doc.NavMainNotList? {
      return Raised;
    }
    var items := doc.Main();
    var issues: seq<string> := [];
    for i := 0 to |items|
      invariant issues == PageIssues(fs, items[..i])
      invariant forall k :: 0 <= k < i ==> items[k].Url().Some?
    {
      var url := items[i].Url();
      if url.None? {
        assert SomeUrlNull(items);
        return Raised;
      }
      PageIssuesStep(fs, items, i);
      if CheckedUrl(url.value) {
        var pagePath := ExpectedPage(url.value);
        if !fs.Exists(pagePath) {
          issues := issues + [ErrorIssue(MissingPageMessage(items[i], url.value))];
        }
      }
    }
    assert items[..|items|] == items;
    r := Returned(issues);
  }

  // ----- external resources -----

  /** `http://(?!localhost|127\.0\.0\.1)` matches at index `i`. */
  predicate InsecureHttpAt(content: string, i: nat) {
    IsAt(content, "http://", i) && !IsAt(content, "localhost", i + 7) && !IsAt(content, "127.0.0.1", i + 7)
  }

  /** `http_pattern.findall(content)` is non-empty. */
  predicate HasInsecureHttp(content: string) {
    exists i | 0 <= i < |content| :: InsecureHttpAt(content, i)
  }

  /** Files whose name ends in `.html` or `.md`. */
  predicate IsPageFile(path: string) {
    EndsWith(path, ".html") || EndsWith(path, ".md")
  }

  /** Opening the file raises an error other than `UnicodeDecodeError`,
      which nothing catches. */
  predicate Unreadable(fs: FileSystem, path: string) {
    path !in fs.text && path !in fs.binary
  }

  /** Some page file among `files` cannot be opened. */
  predicate AnyUnreadable(fs: FileSystem, files: seq<string>) {
    exists i :: 0 <= i < |files| && IsPageFile(files[i]) && Unreadable(fs, files[i])
  }

  lemma AnyUnreadableSnoc(fs: FileSystem, files: seq<string>, path: string)
    ensures AnyUnreadable(fs, files + [path]) <==>
            AnyUnreadable(fs, files) || (IsPageFile(path) && Unreadable(fs, path))
  {
    var s := files + [path];
    assert forall i :: 0 <= i < |files| ==> s[i] == files[i];
    if AnyUnreadable(fs, s) && !(IsPageFile(path) && Unreadable(fs, path)) {
      var i :| 0 <= i < |s| && IsPageFile(s[i]) && Unreadable(fs, s[i]);
      assert i < |files|;
    }
    if AnyUnreadable(fs, files) {
      var i :| 0 <= i < |files| && IsPageFile(files[i]) && Unreadable(fs, files[i]);
      assert s[i] == files[i];
    }
    if IsPageFile(path) && Unreadable(fs, path) {
      assert s[|files|] == path;
    }
  }

  /** The warning one walked file contributes: at most one, however many
      insecure links it holds. Files that cannot be decoded are skipped. */
  function ResourceIssue(fs: FileSystem, path: string): (r: seq<string>)
    ensures |r| <= 1
    ensures r != [] <==> IsPageFile(path) && path in fs.text && HasInsecureHttp(fs.text[path])
  {
    if IsPageFile(path) && path in fs.text && HasInsecureHttp(fs.text[path])
    then [WarningIssue("Non-HTTPS external resources found in " + path)]
    else []
  }

  /** `check_external_resources` over the files `os.walk` yields, after the
      walk has pruned hidden and build directories. */
  function ResourceIssues(fs: FileSystem, walked: seq<string>): seq<string> {
    if walked == [] then []
    else ResourceIssues(fs, walked[..|walked| - 1]) + ResourceIssue(fs, walked[|walked| - 1])
  }

  /** At most one warning per walked file, and warnings only. */
  lemma {:induction false} ResourceIssuesSpec(fs: FileSystem, walked: seq<string>)
    ensures |ResourceIssues(fs, walked)| <= |walked|
    ensures forall i :: 0 <= i < |ResourceIssues(fs, walked)| ==>
              StartsWith(ResourceIssues(fs, walked)[i], "WARNING")
  {
    if walked != [] {
      ResourceIssuesSpec(fs, walked[..|walked| - 1]);
      Labels("Non-HTTPS external resources found in " + walked[|walked| - 1]);
    }
  }

  lemma ResourceIssuesSnoc(fs: FileSystem, walked: seq<string>, path: string)
    ensures ResourceIssues(fs, walked + [path]) == ResourceIssues(fs, walked) + ResourceIssue(fs, path)
  {
    assert (walked + [path])[..|walked|] == walked;
  }

  /** Walking one more file keeps the warnings those collected so far give,
      and whether one of them cannot be opened. */
  lemma PageFilesStep(fs: FileSystem, walked: seq<string>, i: nat, htmlFiles: seq<string>)
    requires i < |walked| && ResourceIssues(fs, walked[..i]) == ResourceIssues(fs, htmlFiles)
    requires AnyUnreadable(fs, walked[..i]) == AnyUnreadable(fs, htmlFiles)
    ensures ResourceIssues(fs, walked[..i + 1]) ==
            ResourceIssues(fs, if IsPageFile(walked[i]) then htmlFiles + [walked[i]] else htmlFiles)
    ensures AnyUnreadable(fs, walked[..i + 1]) ==
            AnyUnreadable(fs, if IsPageFile(walked[i]) then htmlFiles + [walked[i]] else htmlFiles)
  {
    var path := walked[i];
    assert walked[..i + 1] == walked[..i] + [path];
    ResourceIssuesSnoc(fs, walked[..i], path);
    AnyUnreadableSnoc(fs, walked[..i], path);
    if IsPageFile(path) {
      ResourceIssuesSnoc(fs, htmlFiles, path);
      AnyUnreadableSnoc(fs, htmlFiles, path);
    } else {
      assert ResourceIssue(fs, path) == [];
    }
  }

  /** The walk's loop: the files named `*.html` or `*.md`, in walk order. */
  method CollectPageFiles(fs: FileSystem, walked: seq<string>) returns (htmlFiles: seq<string>)
    ensures forall k :: 0 <= k < |htmlFiles| ==> IsPageFile(htmlFiles[k])
    ensures ResourceIssues(fs, walked) == ResourceIssues(fs, htmlFiles)
    ensures AnyUnreadable(fs, walked) == AnyUnreadable(fs, htmlFiles)
  {
    htmlFiles := [];
    for i := 0 to |walked|
      invariant forall k :: 0 <= k < |htmlFiles| ==> IsPageFile(htmlFiles[k])
      invariant ResourceIssues(fs, walked[..i]) == ResourceIssues(fs, htmlFiles)
      invariant AnyUnreadable(fs, walked[..i]) == AnyUnreadable(fs, htmlFiles)
    {
      var next := if IsPageFile(walked[i]) then htmlFiles + [walked[i]] else htmlFiles;
      PageFilesStep(fs, walked, i, htmlFiles);
      htmlFiles := next;
    }
    assert walked[..|walked|] == walked;
  }

  /** `check_external_resources`: the warnings of the walk, or Raised when
      a page file cannot be opened for a reason other than its encoding. */
  function ResourceCheck(fs: FileSystem, walked: seq<string>): Outcome<seq<string>> {
    if AnyUnreadable(fs, walked) then Raised else Returned(ResourceIssues(fs, walked))
  }

  /** The loop over the collected files: one warning per file holding an
      insecure link, skipping files that do not decode; a file that does not
      open ends the check with its exception. */
  method ScanPageFiles(fs: FileSystem, htmlFiles: seq<string>) returns (r: Outcome<seq<string>>)
    requires forall k :: 0 <= k < |htmlFiles| ==> IsPageFile(htmlFiles[k])
    ensures r.Raised? <==> AnyUnreadable(fs, htmlFiles)
    ensures r.Returned? ==> r.value == ResourceIssues(fs, htmlFiles)
  {
    var issues: seq<string> := [];
    for i := 0 to |htmlFiles|
      invariant issues == ResourceIssues(fs, htmlFiles[..i])
      invariant !AnyUnreadable(fs, htmlFiles[..i])
    {
      var path := htmlFiles[i];
      assert htmlFiles[..i + 1] == htmlFiles[..i] + [path];
      ResourceIssuesSnoc(fs, htmlFiles[..i], path);
      AnyUnreadableSnoc(fs, htmlFiles[..i], path);
      if path in fs.text {
        var content := fs.text[path];
        if HasInsecureHttp(content) {
          issues := issues + [WarningIssue("Non-HTTPS external resources found in " + path)];
        }
      } else if path !in fs.binary {
        assert IsPageFile(htmlFiles[i]) && Unreadable(fs, htmlFiles[i]);
        return Raised;
      }
    }
    assert htmlFiles[..|htmlFiles|] == htmlFiles;
    r := Returned(issues);
  }

  method CheckExternalResources(fs: FileSystem, walked: seq<string>) returns (r: Outcome<seq<string>>)
    ensures r.Raised? <==> AnyUnreadable(fs, walked)
    ensures r.Returned? ==> r.value == ResourceIssues(fs, walked)
  {
    var htmlFiles := CollectPageFiles(fs, walked);
    r := ScanPageFiles(fs, htmlFiles);
  }

  // ----- main -----

  /** All four checks in order, or Raised when one of them raises. */
  function AllIssues(fs: FileSystem, yaml: Loader, walked: seq<string>): Outcome<seq<string>> {
    var config := ConfigCheck(fs, yaml);
    var gemfile := GemfileCheck(fs);
    var pages := PagesCheck(fs, yaml);
    var resources := ResourceCheck(fs, walked);
    if config.Raised? || gemfile.Raised? || pages.Raised? || resources.Raised? then Raised
    else Returned(config.value + gemfile.value + pages.value + resources.value)
  }

  /** Only the configuration and page-structure checks can contribute to the
      returned ERROR count: the Gemfile and external-resource checks report
      warnings only. */
  lemma ErrorCountFromConfigAndPages(fs: FileSystem, yaml: Loader, walked: seq<string>)
    requires AllIssues(fs, yaml, walked).Returned?
    ensures |Errors(AllIssues(fs, yaml, walked).value)| ==
            |Errors(ConfigCheck(fs, yaml).value)| + |Errors(PagesCheck(fs, yaml).value)|
  {
    var c := ConfigCheck(fs, yaml).value;
    var g := GemfileCheck(fs).value;
    var p := PagesCheck(fs, yaml).value;
    var w := ResourceIssues(fs, walked);
    GemfileWarnsOnly(fs);
    ResourceIssuesSpec(fs, walked);
    ErrorsSkipWarnings(c, g, p, w);
    assert AllIssues(fs, yaml, walked).value == c + g + p + w;
  }

  /** Lists of warnings between two issue lists add no error. */
  lemma ErrorsSkipWarnings(c: seq<string>, g: seq<string>, p: seq<string>, w: seq<string>)
    requires forall i :: 0 <= i < |g| ==> StartsWith(g[i], "WARNING")
    requires forall i :: 0 <= i < |w| ==> StartsWith(w[i], "WARNING")
    ensures |Errors(c + g + p + w)| == |Errors(c)| + |Errors(p)|
  {
    WarningsOnly(g);
    WarningsOnly(w);
    WithPrefixAppend(c, g, "ERROR");
    WithPrefixAppend(c + g, p, "ERROR");
    WithPrefixAppend(c + g + p, w, "ERROR");
  }

  /** `main`: the number of issues starting with `ERROR`; Raised when a
      check raises, which makes the process exit with status 1. */
  /** A loader error that is no YAML error, in either the configuration or
      the navigation file, is not caught: the whole run raises, and so the
      script exits with status 1 instead of reporting it as an ERROR. */
  lemma LoaderFailureRaises(fs: FileSystem, yaml: Loader, walked: seq<string>)
    requires fs.Exists(ConfigFile) && ConfigFile in fs.text
    requires yaml.config(fs.text[ConfigFile]).ConfigFailed? ||
             (fs.Exists(PagesDir) && fs.Exists(NavigationFile) && NavigationFile in fs.text &&
              yaml.navigation(fs.text[NavigationFile]).NavFailed?)
    ensures AllIssues(fs, yaml, walked).Raised?
  {
  }

  method RunChecks(fs: FileSystem, yaml: Loader, walked: seq<string>) returns (r: Outcome<nat>)
    ensures AllIssues(fs, yaml, walked).Raised? ==> r == Raised
    ensures AllIssues(fs, yaml, walked).Returned? ==>
              r == Returned(|Errors(AllIssues(fs, yaml, walked).value)|)
  {
    var allIssues: seq<string> := [];
    var config := CheckConfigYml(fs, yaml);
    if config.Raised? {
      return Raised;
    }
    allIssues := allIssues + config.value;
    var gemfile := CheckGemfile(fs);
    if gemfile.Raised? {
      return Raised;
    }
    allIssues := allIssues + gemfile.value;
    var pages := CheckPagesStructure(fs, yaml);
    if pages.Raised? {
      return Raised;
    }
    allIssues := allIssues + pages.value;
    var resources := CheckExternalResources(fs, walked);
    if resources.Raised? {
      return Raised;
    }
    allIssues := allIssues + resources.value;
    assert [] + config.value == config.value;
    r := Returned(|Errors(allIssues)|);
  }

  /** The process exit status of the script: `exit(main())`, with 1 for an
      exception that escapes `main`. */
  method RunCompatibilityCheck(fs: FileSystem, yaml: Loader, walked: seq<string>) returns (code: nat)
    ensures code < 256
    ensures AllIssues(fs, yaml, walked).Raised? ==> code == 1
    ensures AllIssues(fs, yaml, walked).Returned? ==>
              code == ExitStatus(|Errors(AllIssues(fs, yaml, walked).value)|)
  {
    var r := RunChecks(fs, yaml, walked);
    if r.Raised? {
      return 1;
    }
    code := ExitStatus(r.value);
  }
}
