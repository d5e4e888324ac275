/** The GitHub Pages deployment test: four test methods that each store a
    result record and return a verdict, and a report that weighs the four
    records into a readiness decision. The walk of the site (`rglob('*')`) is
    the sequence `tree` of relative paths, files and directories alike, in the
    order the walk yields them; `rglob(pattern)` is the part of it whose last
    component matches the pattern. */
module Deployment {
  import opened Text
  import opened Site
  import opened Yaml
  import opened Seqs
  import Paths
  import FrontMatter
  import Patterns
  import Captures
  import Functional

  const ConfigFile := "_config.yml"

  // ----- globbing -----

  /** The last component of `p` matches `*` + `ext`. */
  predicate HasExtension(p: string, ext: string) {
    EndsWith(Paths.BaseName(p), ext)
  }

  function ExtensionFilter(ext: string): string -> bool {
    (p: string) => HasExtension(p, ext)
  }

  /** `rglob('*' + ext)`. */
  function Glob(tree: seq<string>, ext: string): seq<string> {
    Filter(tree, ExtensionFilter(ext))
  }

  /** `for ext in exts: for p in rglob('*' + ext)`, pattern by pattern. */
  function Globbed(tree: seq<string>, exts: seq<string>): seq<string> {
    if exts == [] then [] else Globbed(tree, exts[..|exts| - 1]) + Glob(tree, exts[|exts| - 1])
  }

  predicate MatchesAny(p: string, exts: seq<string>) {
    exists k :: 0 <= k < |exts| && HasExtension(p, exts[k])
  }

  lemma {:induction false} GlobbedMembership(tree: seq<string>, exts: seq<string>)
    ensures forall p {:trigger p in Globbed(tree, exts)} ::
              p in Globbed(tree, exts) <==> p in tree && MatchesAny(p, exts)
  {
    if exts != [] {
      var init := exts[..|exts| - 1];
      var last := exts[|exts| - 1];
      GlobbedMembership(tree, init);
      FilterMembership(tree, ExtensionFilter(last));
      forall p ensures MatchesAny(p, exts) <==> MatchesAny(p, init) || HasExtension(p, last) {
        if MatchesAny(p, exts) {
          var k :| 0 <= k < |exts| && HasExtension(p, exts[k]);
          if k < |init| {
            assert init[k] == exts[k];
          }
        }
        if MatchesAny(p, init) {
          var k :| 0 <= k < |init| && HasExtension(p, init[k]);
          assert exts[k] == init[k];
        }
      }
    }
  }

  /** No pattern matches exactly when no walked path matches any of them. */
  lemma GlobbedEmptyIff(tree: seq<string>, exts: seq<string>)
    ensures Globbed(tree, exts) == [] <==> forall i :: 0 <= i < |tree| ==> !MatchesAny(tree[i], exts)
  {
    var g := Globbed(tree, exts);
    GlobbedMembership(tree, exts);
    if g != [] {
      assert g[0] in g;
      var i :| 0 <= i < |tree| && tree[i] == g[0];
    } else {
      forall i | 0 <= i < |tree| ensures !MatchesAny(tree[i], exts) {
        assert tree[i] !in g;
      }
    }
  }

  /** A property holds of every match of a single pattern exactly when it
      holds of every walked path with that extension. */
  lemma GlobForall(tree: seq<string>, ext: string, P: string -> bool)
    ensures (forall j :: 0 <= j < |Glob(tree, ext)| ==> P(Glob(tree, ext)[j])) <==>
            (forall i :: 0 <= i < |tree| && HasExtension(tree[i], ext) ==> P(tree[i]))
  {
    FilterMembership(tree, ExtensionFilter(ext));
    if forall j :: 0 <= j < |Glob(tree, ext)| ==> P(Glob(tree, ext)[j]) {
      forall i | 0 <= i < |tree| && HasExtension(tree[i], ext) ensures P(tree[i]) {
        assert tree[i] in Glob(tree, ext);
      }
    } else {
      var j :| 0 <= j < |Glob(tree, ext)| && !P(Glob(tree, ext)[j]);
      assert Glob(tree, ext)[j] in Glob(tree, ext);
      var i :| 0 <= i < |tree| && tree[i] == Glob(tree, ext)[j];
      assert HasExtension(tree[i], ext) && !P(tree[i]);
    }
  }

  /** The same for the matches of several patterns. */
  lemma GlobbedForall(tree: seq<string>, exts: seq<string>, P: string -> bool)
    ensures (forall j :: 0 <= j < |Globbed(tree, exts)| ==> P(Globbed(tree, exts)[j])) <==>
            (forall i :: 0 <= i < |tree| && MatchesAny(tree[i], exts) ==> P(tree[i]))
  {
    GlobbedMembership(tree, exts);
    if forall j :: 0 <= j < |Globbed(tree, exts)| ==> P(Globbed(tree, exts)[j]) {
      forall i | 0 <= i < |tree| && MatchesAny(tree[i], exts) ensures P(tree[i]) {
        assert tree[i] in Globbed(tree, exts);
      }
    } else {
      var j :| 0 <= j < |Globbed(tree, exts)| && !P(Globbed(tree, exts)[j]);
      assert Globbed(tree, exts)[j] in Globbed(tree, exts);
      var i :| 0 <= i < |tree| && tree[i] == Globbed(tree, exts)[j];
      assert MatchesAny(tree[i], exts) && !P(tree[i]);
    }
  }

  // ----- test 1: Jekyll build compatibility -----

  /** `open('_config.yml')` succeeds. */
  predicate ConfigReadable(fs: FileSystem) {
    fs.Exists(ConfigFile) && ConfigFile in fs.text
  }

  function ConfigDocument(fs: FileSystem, yaml: Loader): ConfigDoc
    requires ConfigReadable(fs)
  {
    yaml.config(fs.text[ConfigFile])
  }

  /** The configuration loads as a mapping, so every lookup in it succeeds. */
  predicate ConfigIsMapping(fs: FileSystem, yaml: Loader) {
    ConfigReadable(fs) && ConfigDocument(fs, yaml).ConfigMapping?
  }

  function LoadedConfig(fs: FileSystem, yaml: Loader): Config
    requires ConfigIsMapping(fs, yaml)
  {
    ConfigDocument(fs, yaml).config
  }

  const NotOnAllowList: string -> bool := (p: string) => p !in Functional.GitHubPagesPlugins

  /** `[p for p in plugins if p not in github_pages_plugins]`. */
  function Incompatible(plugins: seq<string>): seq<string> {
    Filter(plugins, NotOnAllowList)
  }

  /** The incompatible plugins are the plugins off the allow-list, each as
      often as it is listed, and there are none exactly when the plugin list
      passes the allow-list test of the functional test suite. */
  lemma IncompatibleSpec(plugins: seq<string>)
    ensures forall p {:trigger multiset(Incompatible(plugins))[p]} ::
              multiset(Incompatible(plugins))[p] ==
                if p in Functional.GitHubPagesPlugins then 0 else multiset(plugins)[p]
    ensures Incompatible(plugins) == [] <==> Functional.PluginsCompatible(plugins)
  {
    FilterMultiset(plugins, NotOnAllowList);
    FilterEmptyIff(plugins, NotOnAllowList);
  }

  const RequiredFields: seq<string> := ["title", "description", "url"]

  datatype JekyllConfig = JekyllConfig(
    configExists: bool,
    validYaml: bool,
    compatible: bool,
    requiredFields: map<string, bool>,
    plugins: seq<string>,
    incompatiblePlugins: Option<seq<string>>)   // absent unless the config is a mapping

  /** The `jekyll_config` record and whether a `config_error` was stored.
      Reading the file must succeed for the YAML to count as valid; an empty
      document is valid YAML but fails at the first `field in config`. */
  function JekyllConfigCheck(fs: FileSystem, yaml: Loader): (r: (JekyllConfig, bool))
    ensures r.0.configExists == fs.Exists(ConfigFile)
    ensures r.0.validYaml <==> ConfigReadable(fs) && ConfigDocument(fs, yaml).Loads()
    ensures r.0.compatible <==>
              ConfigIsMapping(fs, yaml) && Incompatible(LoadedConfig(fs, yaml).Plugins()) == []
    ensures r.0.incompatiblePlugins.Some? <==> ConfigIsMapping(fs, yaml)
    ensures r.1 <==> fs.Exists(ConfigFile) && !ConfigIsMapping(fs, yaml)
    ensures ConfigIsMapping(fs, yaml) ==>
              forall f :: f in RequiredFields ==>
                f in r.0.requiredFields && (r.0.requiredFields[f] <==> f in LoadedConfig(fs, yaml).keys)
  {
    var unread := JekyllConfig(false, false, false, map[], [], None);
    if !fs.Exists(ConfigFile) then (unread, false)
    else if ConfigFile !in fs.text then (unread.(configExists := true), true)
    else
      match yaml.config(fs.text[ConfigFile])
      case ConfigMalformed(_) => (unread.(configExists := true), true)
      case ConfigFailed => (unread.(configExists := true), true)
      case ConfigEmpty => (unread.(configExists := true, validYaml := true), true)
      case ConfigMapping(c) =>
        var incompatible := Incompatible(c.Plugins());
        (JekyllConfig(true, true, incompatible == [],
                      map f | f in RequiredFields :: f in c.keys,
                      c.Plugins(), Some(incompatible)), false)
  }

  const RequiredDirs: seq<string> := ["_pages", "_data", "_sass", "_includes"]
  const OptionalDirs: seq<string> := ["_layouts", "assets", "images"]

  datatype DirEntry = DirEntry(present: bool, required: bool)

  /** The `directory_structure` map after visiting `names` in order. */
  function DirStructure(fs: FileSystem, names: seq<string>): (r: map<string, DirEntry>)
    ensures forall d :: d in r <==> d in names
    ensures forall d :: d in r ==> r[d] == DirEntry(fs.Exists(d), d in RequiredDirs)
  {
    if names == [] then map[]
    else
      var d := names[|names| - 1];
      DirStructure(fs, names[..|names| - 1])[d := DirEntry(fs.Exists(d), d in RequiredDirs)]
  }

  const ProblematicPatterns: seq<string> := [".php", ".asp", ".jsp"]

  function ProblematicFiles(tree: seq<string>): seq<string> {
    Globbed(tree, ProblematicPatterns)
  }

  const MaxFileSize: nat := 100 * 1024 * 1024

  /** A file whose size can be read and is over the per-file limit. */
  predicate IsLargeFile(fs: FileSystem, p: string) {
    p in fs.files && p in fs.sizes && fs.sizes[p] > MaxFileSize
  }

  function LargeFilter(fs: FileSystem): string -> bool {
    (p: string) => IsLargeFile(fs, p)
  }

  function LargeFiles(fs: FileSystem, tree: seq<string>): seq<string> {
    Filter(tree, LargeFilter(fs))
  }

  datatype FileIssues = FileIssues(problematic: seq<string>, large: seq<string>, status: Status)

  function FileIssuesOf(problematic: seq<string>, large: seq<string>): (r: FileIssues)
    ensures r.status == Pass <==> problematic == [] && large == []
    ensures r.status in {Pass, Warn}
  {
    FileIssues(problematic, large, if problematic == [] && large == [] then Pass else Warn)
  }

  datatype JekyllResults = JekyllResults(
    config: JekyllConfig,
    configError: bool,
    directories: map<string, DirEntry>,
    fileIssues: FileIssues)

  function JekyllTests(fs: FileSystem, yaml: Loader, tree: seq<string>): JekyllResults {
    var (config, configError) := JekyllConfigCheck(fs, yaml);
    JekyllResults(config, configError, DirStructure(fs, RequiredDirs + OptionalDirs),
                  FileIssuesOf(ProblematicFiles(tree), LargeFiles(fs, tree)))
  }

  /** The value `test_jekyll_build_compatibility` returns for its record. */
  predicate JekyllPasses(r: JekyllResults) {
    r.config.validYaml && r.config.compatible && r.fileIssues.problematic == [] && r.fileIssues.large == []
  }

  /** The Jekyll test passes exactly when the configuration is a mapping
      whose plugins are all on the allow-list, no walked path has a
      server-page extension and no file is over 100 MiB. */
  lemma JekyllPassesIff(fs: FileSystem, yaml: Loader, tree: seq<string>)
    ensures JekyllPasses(JekyllTests(fs, yaml, tree)) <==>
              && ConfigIsMapping(fs, yaml)
              && (forall p :: p in LoadedConfig(fs, yaml).Plugins() ==> p in Functional.GitHubPagesPlugins)
              && (forall i :: 0 <= i < |tree| ==> !MatchesAny(tree[i], ProblematicPatterns))
              && (forall i :: 0 <= i < |tree| ==> !IsLargeFile(fs, tree[i]))
  {
    if ConfigIsMapping(fs, yaml) {
      IncompatibleSpec(LoadedConfig(fs, yaml).Plugins());
    }
    GlobbedEmptyIff(tree, ProblematicPatterns);
    FilterEmptyIff(tree, LargeFilter(fs));
  }

  // ----- test 2: GitHub Pages requirements -----

  datatype RepoStructure = RepoStructure(hasReadme: bool, hasLicense: bool, hasGitignore: bool, hasGithubDir: bool)

  function RepoStructureOf(fs: FileSystem): RepoStructure {
    RepoStructure(fs.Exists("README.md"), fs.Exists("LICENSE"), fs.Exists(".gitignore"), fs.Exists(".github"))
  }

  datatype PagesSettings = PagesSettings(baseurlSet: bool, urlSet: bool, githubMetadata: bool, safeMode: bool)

  /** The `pages_settings` record and whether a `config_error` was stored.
      With no readable mapping every flag keeps its default. */
  function PagesSettingsCheck(fs: FileSystem, yaml: Loader): (r: (PagesSettings, bool))
    ensures r.0.urlSet <==> ConfigIsMapping(fs, yaml) && "url" in LoadedConfig(fs, yaml).keys
    ensures r.0.baseurlSet <==> ConfigIsMapping(fs, yaml) && "baseurl" in LoadedConfig(fs, yaml).keys
    ensures r.0.githubMetadata <==>
              ConfigIsMapping(fs, yaml) && "jekyll-github-metadata" in LoadedConfig(fs, yaml).Plugins()
    ensures !r.0.safeMode <==> ConfigIsMapping(fs, yaml) && LoadedConfig(fs, yaml).safeIsFalse
    ensures r.1 <==> fs.Exists(ConfigFile) && !ConfigIsMapping(fs, yaml)
  {
    var defaults := PagesSettings(false, false, false, true);
    if !fs.Exists(ConfigFile) then (defaults, false)
    else if ConfigFile !in fs.text then (defaults, true)
    else
      match yaml.config(fs.text[ConfigFile])
      case ConfigMapping(c) =>
        (PagesSettings("baseurl" in c.keys, "url" in c.keys,
                       "jekyll-github-metadata" in c.Plugins(), !c.safeIsFalse), false)
      case _ => (defaults, true)
  }

  const PluginsDir := "_plugins"

  /** A direct child of `_plugins` matching `*.rb`. */
  predicate IsCustomPlugin(p: string) {
    StartsWith(p, PluginsDir + "/") && '/' !in p[|PluginsDir| + 1..] && HasExtension(p, ".rb")
  }

  /** The names of the `*.rb` files directly inside `_plugins`, in walk order. */
  function PluginNames(tree: seq<string>): (r: seq<string>)
    ensures forall j :: 0 <= j < |r| ==> EndsWith(r[j], ".rb") && '/' !in r[j]
  {
    if tree == [] then []
    else
      var p := tree[|tree| - 1];
      PluginNames(tree[..|tree| - 1]) + if IsCustomPlugin(p) then [Paths.BaseName(p)] else []
  }

  function CustomPlugins(fs: FileSystem, tree: seq<string>): seq<string> {
    if fs.Exists(PluginsDir) then PluginNames(tree) else []
  }

  lemma {:induction false} PluginNamesEmptyIff(tree: seq<string>)
    ensures PluginNames(tree) == [] <==> forall i :: 0 <= i < |tree| ==> !IsCustomPlugin(tree[i])
  {
    if tree != [] {
      var init := tree[..|tree| - 1];
      PluginNamesEmptyIff(init);
      assert forall i :: 0 <= i < |init| ==> init[i] == tree[i];
    }
  }

  const ServerSidePatterns: seq<string> := [".php", ".py", ".rb", ".js"]
  const ExcludedParts: seq<string> := ["_site", "node_modules", ".git"]
  const ServerSideKeywords: seq<string> := ["<?php", "require_once", "import flask", "express("]

  /** How many characters of a candidate file the heuristic reads. */
  const ProbeLength: nat := 1000

  /** Outside the excluded trees, readable, and naming a server-side keyword
      in its first 1000 characters. */
  predicate IsServerSide(fs: FileSystem, p: string) {
    !ContainsAny(p, ExcludedParts) && p in fs.text &&
    ContainsAny(Take(fs.text[p], ProbeLength), ServerSideKeywords)
  }

  function ServerSideFilter(fs: FileSystem): string -> bool {
    (p: string) => IsServerSide(fs, p)
  }

  function ServerSideCode(fs: FileSystem, tree: seq<string>): seq<string> {
    Filter(Globbed(tree, ServerSidePatterns), ServerSideFilter(fs))
  }

  function NotServerSide(fs: FileSystem): string -> bool {
    (p: string) => !IsServerSide(fs, p)
  }

  lemma ServerSideCodeEmptyIff(fs: FileSystem, tree: seq<string>)
    ensures ServerSideCode(fs, tree) == [] <==>
              forall i :: 0 <= i < |tree| && MatchesAny(tree[i], ServerSidePatterns) ==> !IsServerSide(fs, tree[i])
  {
    var g := Globbed(tree, ServerSidePatterns);
    assert ServerSideCode(fs, tree) == Filter(g, ServerSideFilter(fs));
    FilterEmptyIff(g, ServerSideFilter(fs));
    GlobbedForall(tree, ServerSidePatterns, NotServerSide(fs));
    forall j | 0 <= j < |g| ensures !ServerSideFilter(fs)(g[j]) <==> NotServerSide(fs)(g[j]) {
    }
    forall i | 0 <= i < |tree| ensures NotServerSide(fs)(tree[i]) <==> !IsServerSide(fs, tree[i]) {
    }
  }

  /** The summed size of every file of the walk, or None when `stat` fails
      on one of them and the estimate is abandoned. */
  function RepoSize(fs: FileSystem, tree: seq<string>): (r: Option<nat>)
    ensures r.Some? <==> forall i :: 0 <= i < |tree| && tree[i] in fs.files ==> tree[i] in fs.sizes
  {
    if tree == [] then Some(0)
    else
      var p := tree[|tree| - 1];
      var init := tree[..|tree| - 1];
      assert forall i :: 0 <= i < |init| ==> init[i] == tree[i];
      match RepoSize(fs, init)
      case None => None
      case Some(n) =>
        if p !in fs.files then Some(n)
        else if p in fs.sizes then Some(n + fs.sizes[p])
        else None
  }

  const MaxRepoSize: nat := 1024 * 1024 * 1024

  /** `large_repo_size`: only an estimate that completed can exceed 1 GiB. */
  predicate LargeRepo(fs: FileSystem, tree: seq<string>) {
    RepoSize(fs, tree).Some? && RepoSize(fs, tree).value > MaxRepoSize
  }

  datatype Limitations = Limitations(
    customPlugins: seq<string>,
    serverSideCode: seq<string>,
    largeRepoSize: bool,
    status: Status)

  function LimitationsOf(plugins: seq<string>, serverSide: seq<string>, large: bool): (r: Limitations)
    ensures r.status == Pass <==> plugins == [] && serverSide == [] && !large
    ensures r.status in {Pass, Warn}
  {
    Limitations(plugins, serverSide, large, if plugins == [] && serverSide == [] && !large then Pass else Warn)
  }

  datatype PagesResults = PagesResults(
    structure: RepoStructure,
    structureStatus: Status,
    settings: PagesSettings,
    configError: bool,
    settingsStatus: Status,
    limitations: Limitations)

  function PagesTests(fs: FileSystem, yaml: Loader, tree: seq<string>): PagesResults {
    var structure := RepoStructureOf(fs);
    var (settings, configError) := PagesSettingsCheck(fs, yaml);
    PagesResults(structure, if structure.hasReadme then Pass else Warn,
                 settings, configError, if settings.urlSet && settings.safeMode then Pass else Warn,
                 LimitationsOf(CustomPlugins(fs, tree), ServerSideCode(fs, tree), LargeRepo(fs, tree)))
  }

  /** The value `test_github_pages_requirements` returns for its record. */
  predicate PagesPasses(r: PagesResults) {
    r.structureStatus == Pass && r.settingsStatus == Pass && r.limitations.status == Pass
  }

  /** The requirements pass exactly when there is a README, the configuration
      is a mapping with `url` that does not turn safe mode off, there is no
      custom plugin, no server-side code and the repository is not over 1 GiB. */
  lemma PagesPassesIff(fs: FileSystem, yaml: Loader, tree: seq<string>)
    ensures PagesPasses(PagesTests(fs, yaml, tree)) <==>
              && fs.Exists("README.md")
              && ConfigIsMapping(fs, yaml) && "url" in LoadedConfig(fs, yaml).keys
              && !LoadedConfig(fs, yaml).safeIsFalse
              && (!fs.Exists(PluginsDir) || forall i :: 0 <= i < |tree| ==> !IsCustomPlugin(tree[i]))
              && (forall i :: 0 <= i < |tree| && MatchesAny(tree[i], ServerSidePatterns) ==>
                    !IsServerSide(fs, tree[i]))
              && !LargeRepo(fs, tree)
  {
    PluginNamesEmptyIff(tree);
    ServerSideCodeEmptyIff(fs, tree);
  }

  // ----- test 3: security compliance -----

  const PagePatterns: seq<string> := [".html", ".md"]

  /** Outside the generated site and readable. */
  predicate Scanned(fs: FileSystem, p: string) {
    !Contains(p, "_site") && p in fs.text
  }

  datatype HttpLink = HttpLink(file: string, url: string)

  function LinkOf(p: string): string -> HttpLink {
    (url: string) => HttpLink(p, url)
  }

  /** The `http_links` entries one file contributes. */
  function FileLinks(fs: FileSystem, p: string): seq<HttpLink> {
    if Scanned(fs, p) then Map(Patterns.HttpLinks(fs.text[p]), LinkOf(p)) else []
  }

  function LinksOf(fs: FileSystem): string -> seq<HttpLink> {
    (p: string) => FileLinks(fs, p)
  }

  /** One more file appends its links. */
  lemma LinksSnoc(fs: FileSystem, files: seq<string>, i: nat)
    requires i < |files|
    ensures FlatMap(files[..i + 1], LinksOf(fs)) == FlatMap(files[..i], LinksOf(fs)) + FileLinks(fs, files[i])
  {
    assert files[..i + 1] == files[..i] + [files[i]];
    FlatMapSnoc(files[..i], files[i], LinksOf(fs));
  }

  function HttpLinkRecords(fs: FileSystem, files: seq<string>): seq<HttpLink> {
    FlatMap(files, LinksOf(fs))
  }

  predicate NoHttpLink(s: string) {
    forall k :: 0 <= k < |s| ==> !Patterns.HttpLinkAt(s, k)
  }

  /** No link is recorded exactly when no scanned file has `http://` followed
      by a character that can continue a URL. */
  lemma HttpLinkRecordsEmptyIff(fs: FileSystem, files: seq<string>)
    ensures HttpLinkRecords(fs, files) == [] <==>
              forall i :: 0 <= i < |files| && Scanned(fs, files[i]) ==> NoHttpLink(fs.text[files[i]])
  {
    FlatMapEmptyIff(files, LinksOf(fs));
    forall i | 0 <= i < |files| && Scanned(fs, files[i])
      ensures LinksOf(fs)(files[i]) == [] <==> NoHttpLink(fs.text[files[i]])
    {
      Patterns.HttpLinksEmptyIff(fs.text[files[i]]);
    }
  }

  /** An entry of `external_scripts`. */
  datatype ExternalScript = ExternalScript(file: string, src: string)

  /** `match.startswith('http')`. */
  function RemoteTest(): string -> bool {
    (m: string) => StartsWith(m, "http")
  }

  function ScriptOf(p: string): string -> ExternalScript {
    (src: string) => ExternalScript(p, src)
  }

  /** The `external_scripts` entries one file contributes: the `src` of each
      `<script>` tag that starts with `http`. */
  function FileScripts(fs: FileSystem, p: string): seq<ExternalScript> {
    if Scanned(fs, p) then Map(Filter(Captures.ScriptSources(fs.text[p]), RemoteTest()), ScriptOf(p)) else []
  }

  function ScriptsOf(fs: FileSystem): string -> seq<ExternalScript> {
    (p: string) => FileScripts(fs, p)
  }

  function ExternalScriptRecords(fs: FileSystem, files: seq<string>): seq<ExternalScript> {
    FlatMap(files, ScriptsOf(fs))
  }

  /** One more file appends its external scripts. */
  lemma ScriptsSnoc(fs: FileSystem, files: seq<string>, i: nat)
    requires i < |files|
    ensures FlatMap(files[..i + 1], ScriptsOf(fs)) == FlatMap(files[..i], ScriptsOf(fs)) + FileScripts(fs, files[i])
  {
    assert files[..i + 1] == files[..i] + [files[i]];
    FlatMapSnoc(files[..i], files[i], ScriptsOf(fs));
  }

  /** A recorded script comes from a scanned file among `files`, and its
      source starts with `http` and holds no quote. */
  lemma ExternalScriptsAreRemote(fs: FileSystem, files: seq<string>)
    ensures forall r :: r in ExternalScriptRecords(fs, files) ==>
              (exists i :: 0 <= i < |files| && files[i] == r.file && Scanned(fs, r.file)) &&
              StartsWith(r.src, "http") && '"' !in r.src && '\'' !in r.src
  {
    forall r | r in ExternalScriptRecords(fs, files)
      ensures (exists i :: 0 <= i < |files| && files[i] == r.file && Scanned(fs, r.file)) &&
              StartsWith(r.src, "http") && '"' !in r.src && '\'' !in r.src
    {
      FlatMapMembership(files, ScriptsOf(fs), r);
      var i :| 0 <= i < |files| && r in FileScripts(fs, files[i]);
      FileScriptShape(fs, files[i], r);
    }
  }

  lemma FileScriptShape(fs: FileSystem, p: string, r: ExternalScript)
    requires r in FileScripts(fs, p)
    ensures r.file == p && Scanned(fs, p)
    ensures StartsWith(r.src, "http") && '"' !in r.src && '\'' !in r.src
  {
    var srcs := Captures.ScriptSources(fs.text[p]);
    var kept := Filter(srcs, RemoteTest());
    MapIndex(kept, ScriptOf(p));
    var j :| 0 <= j < |kept| && Map(kept, ScriptOf(p))[j] == r;
    assert kept[j] in kept;
    FilterMembership(srcs, RemoteTest());
    var k :| 0 <= k < |srcs| && srcs[k] == kept[j];
    Captures.ScriptSourcesShape(fs.text[p]);
    assert forall c :: 0 <= c < |r.src| ==> r.src[c] !in Patterns.Quotes;
  }

  const SensitiveSuffixes: seq<string> := [".yml", ".yaml", ".json", ".md", ".html"]

  /** A walked file whose content is searched for secrets. */
  predicate SecretScanned(fs: FileSystem, p: string) {
    p in fs.files && Paths.Suffix(p) in SensitiveSuffixes && Scanned(fs, p)
  }

  datatype Finding = Finding(file: string, pattern: string, context: string)

  /** At most 50 characters of a match, marked with `...` when cut. */
  function Context(m: string): (r: string)
    ensures |r| <= 53
    ensures StartsWith(m, Take(r, 50))
    ensures |m| <= 50 ==> r == m
  {
    if |m| > 50 then m[..50] + "..." else m
  }

  /** A secret match ends with a quote, so its context is the match itself
      exactly when the match is at most 50 characters long. */
  lemma ContextOfMatch(m: string)
    requires Patterns.IsSecretMatch(m)
    ensures Context(m) == m <==> |m| <= 50
  {
    if |m| > 50 {
      assert Context(m)[|Context(m)| - 1] == '.';
    }
  }

  function FindingOf(p: string, secret: Patterns.Secret): string -> Finding {
    (m: string) => Finding(p, secret.Pattern(), Context(m))
  }

  /** The findings of one pattern in one file. */
  function SecretFindings(p: string, content: string, secret: Patterns.Secret): seq<Finding> {
    Map(Patterns.SecretMatches(content, secret), FindingOf(p, secret))
  }

  function PatternFindings(p: string, content: string): Patterns.Secret -> seq<Finding> {
    (secret: Patterns.Secret) => SecretFindings(p, content, secret)
  }

  function FindingsOf(fs: FileSystem): string -> seq<Finding> {
    (p: string) => if SecretScanned(fs, p) then FlatMap(Patterns.Secrets, PatternFindings(p, fs.text[p])) else []
  }

  function SensitiveFindings(fs: FileSystem, tree: seq<string>): seq<Finding> {
    FlatMap(tree, FindingsOf(fs))
  }

  predicate NoSecret(s: string) {
    forall k, i :: 0 <= k < |Patterns.Secrets| && 0 <= i < |s| ==> Patterns.SecretEnd(s, i, Patterns.Secrets[k]) == -1
  }

  lemma FileFindingsEmptyIff(p: string, content: string)
    ensures FlatMap(Patterns.Secrets, PatternFindings(p, content)) == [] <==> NoSecret(content)
  {
    FlatMapEmptyIff(Patterns.Secrets, PatternFindings(p, content));
    forall k | 0 <= k < |Patterns.Secrets|
      ensures SecretFindings(p, content, Patterns.Secrets[k]) == [] <==>
                forall i :: 0 <= i < |content| ==> Patterns.SecretEnd(content, i, Patterns.Secrets[k]) == -1
    {
      Patterns.SecretMatchesEmptyIff(content, Patterns.Secrets[k]);
    }
  }

  /** There is no finding exactly when no scanned file holds an assignment
      of a quoted value to a password, API key, secret or token. */
  lemma SensitiveFindingsEmptyIff(fs: FileSystem, tree: seq<string>)
    ensures SensitiveFindings(fs, tree) == [] <==> NoSecrets(fs, tree)
  {
    FlatMapEmptyIff(tree, FindingsOf(fs));
    forall i | 0 <= i < |tree| && SecretScanned(fs, tree[i])
      ensures FindingsOf(fs)(tree[i]) == [] <==> NoSecret(fs.text[tree[i]])
    {
      FileFindingsEmptyIff(tree[i], fs.text[tree[i]]);
    }
  }

  datatype GitignoreSecurity = GitignoreSecurity(
    present: bool, hasEnvFiles: bool, hasConfigFiles: bool, hasLogFiles: bool)

  /** The `.gitignore` record; the three flags need a readable file. */
  function GitignoreCheck(fs: FileSystem): (r: GitignoreSecurity)
    ensures r.present == fs.Exists(".gitignore")
    ensures r.hasEnvFiles || r.hasConfigFiles || r.hasLogFiles ==>
              fs.Exists(".gitignore") && ".gitignore" in fs.text
    ensures r.hasEnvFiles <==>
              fs.Exists(".gitignore") && ".gitignore" in fs.text && Contains(fs.text[".gitignore"], ".env")
    ensures r.hasConfigFiles <==>
              fs.Exists(".gitignore") && ".gitignore" in fs.text &&
              (Contains(fs.text[".gitignore"], "config.yml") || Contains(fs.text[".gitignore"], "*.config"))
    ensures r.hasLogFiles <==>
              fs.Exists(".gitignore") && ".gitignore" in fs.text &&
              (Contains(fs.text[".gitignore"], "*.log") || Contains(fs.text[".gitignore"], "logs/"))
  {
    var present := fs.Exists(".gitignore");
    if present && ".gitignore" in fs.text then
      var content := fs.text[".gitignore"];
      assert Contains(content, "*.env") ==> Contains(content, ".env") by {
        ContainsIff(content, "*.env");
        ContainsIff(content, ".env");
        if Contains(content, "*.env") {
          var i: nat :| IsAt(content, "*.env", i);
          assert content[i + 1..i + 5] == content[i..i + 5][1..];
          assert IsAt(content, ".env", i + 1);
        }
      }
      ContainsAnyOfTwo(content, ".env", "*.env");
      ContainsAnyOfTwo(content, "config.yml", "*.config");
      ContainsAnyOfTwo(content, "*.log", "logs/");
      GitignoreSecurity(true, ContainsAny(content, [".env", "*.env"]),
                        ContainsAny(content, ["config.yml", "*.config"]),
                        ContainsAny(content, ["*.log", "logs/"]))
    else GitignoreSecurity(present, false, false, false)
  }

  /** The security record; `insecure_resources` is always an empty list and
      is not stored. */
  datatype SecurityResults = SecurityResults(
    httpLinks: seq<HttpLink>,
    externalScripts: seq<ExternalScript>,
    httpStatus: Status,
    findings: seq<Finding>,
    sensitiveStatus: Status,
    gitignore: GitignoreSecurity,
    gitignoreStatus: Status)
  {
    /** `http_count`. */
    function HttpCount(): nat { |httpLinks| }

    /** `external_script_count`. */
    function ExternalScriptCount(): nat { |externalScripts| }
  }

  function SecurityTests(fs: FileSystem, tree: seq<string>): SecurityResults {
    var links := HttpLinkRecords(fs, Globbed(tree, PagePatterns));
    var scripts := ExternalScriptRecords(fs, Globbed(tree, PagePatterns));
    var findings := SensitiveFindings(fs, tree);
    var gitignore := GitignoreCheck(fs);
    SecurityResults(links, scripts, if |links| == 0 then Pass else Warn,
                    findings, if |findings| == 0 then Pass else Fail,
                    gitignore, if gitignore.present then Pass else Warn)
  }

  /** The value `test_security_compliance` returns for its record: the
      external scripts found along the way play no part in it. */
  predicate SecurityPasses(r: SecurityResults) {
    |r.httpLinks| == 0 && |r.findings| == 0 && r.gitignore.present
  }

  function HttpClean(fs: FileSystem): string -> bool {
    (p: string) => Scanned(fs, p) ==> NoHttpLink(fs.text[p])
  }

  /** No page anywhere in the walk holds an `http://` link. */
  predicate PagesUseHttps(fs: FileSystem, tree: seq<string>) {
    forall i :: 0 <= i < |tree| && MatchesAny(tree[i], PagePatterns) && Scanned(fs, tree[i]) ==>
      NoHttpLink(fs.text[tree[i]])
  }

  /** No scanned file holds a secret assignment. */
  predicate NoSecrets(fs: FileSystem, tree: seq<string>) {
    forall i :: 0 <= i < |tree| && SecretScanned(fs, tree[i]) ==> NoSecret(fs.text[tree[i]])
  }

  lemma PageLinksEmptyIff(fs: FileSystem, tree: seq<string>)
    ensures HttpLinkRecords(fs, Globbed(tree, PagePatterns)) == [] <==> PagesUseHttps(fs, tree)
  {
    HttpLinkRecordsEmptyIff(fs, Globbed(tree, PagePatterns));
    GlobbedForall(tree, PagePatterns, HttpClean(fs));
  }

  /** Security passes exactly when no page of the walk links over plain
      HTTP, no scanned file assigns a quoted secret, and `.gitignore` exists. */
  lemma SecurityPassesIff(fs: FileSystem, tree: seq<string>)
    ensures SecurityPasses(SecurityTests(fs, tree)) <==>
              PagesUseHttps(fs, tree) && NoSecrets(fs, tree) && fs.Exists(".gitignore")
  {
    PageLinksEmptyIff(fs, tree);
    SensitiveFindingsEmptyIff(fs, tree);
  }

  // ----- test 4: deployment readiness -----

  const HomePage := "_pages/about.md"

  datatype BuildRequirements = BuildRequirements(
    gemfileExists: bool, gemfileLockExists: bool, configValid: bool, pagesReady: bool)

  /** The configuration is read and loads, as anything, without an error. */
  predicate ConfigValid(fs: FileSystem, yaml: Loader) {
    ConfigReadable(fs) && ConfigDocument(fs, yaml).Loads()
  }

  function BuildRequirementsOf(fs: FileSystem, yaml: Loader): BuildRequirements {
    BuildRequirements(fs.Exists("Gemfile"), fs.Exists("Gemfile.lock"), ConfigValid(fs, yaml), fs.Exists(HomePage))
  }

  datatype BuildIssue = BuildIssue(file: string, issue: string)

  predicate MalformedTag(tag: string) {
    !EndsWith(Strip(tag), "%}")
  }

  /** The `liquid_syntax_errors` entries one file contributes. */
  function LiquidIssuesOf(fs: FileSystem): string -> seq<BuildIssue> {
    (p: string) =>
      if Scanned(fs, p) then Map(Filter(Patterns.LiquidTags(fs.text[p]), MalformedTag), MalformedLiquid(p))
      else []
  }

  function MalformedLiquid(p: string): string -> BuildIssue {
    (tag: string) => BuildIssue(p, "Malformed Liquid tag")
  }

  function LiquidSyntaxErrors(fs: FileSystem, files: seq<string>): seq<BuildIssue> {
    FlatMap(files, LiquidIssuesOf(fs))
  }

  /** Every tag `{%.*?%}` finds still ends in `%}` once stripped, so the
      Liquid check never reports anything. */
  lemma NoLiquidSyntaxErrors(fs: FileSystem, files: seq<string>)
    ensures LiquidSyntaxErrors(fs, files) == []
  {
    FlatMapEmptyIff(files, LiquidIssuesOf(fs));
    forall i | 0 <= i < |files| && Scanned(fs, files[i])
      ensures Filter(Patterns.LiquidTags(fs.text[files[i]]), MalformedTag) == []
    {
      var tags := Patterns.LiquidTags(fs.text[files[i]]);
      Patterns.LiquidTagsWellFormed(fs.text[files[i]]);
      FilterEmptyIff(tags, MalformedTag);
    }
  }

  /** A scanned page with a closed front-matter block that does not parse. */
  predicate InvalidFrontMatter(fs: FileSystem, yaml: Loader, p: string) {
    Scanned(fs, p) && FrontMatter.ByFind(fs.text[p]).Some? &&
    yaml.frontMatter(FrontMatter.ByFind(fs.text[p]).value).Malformed?
  }

  function InvalidFilter(fs: FileSystem, yaml: Loader): string -> bool {
    (p: string) => InvalidFrontMatter(fs, yaml, p)
  }

  function InvalidYaml(p: string): BuildIssue {
    BuildIssue(p, "Invalid YAML front matter")
  }

  function YamlErrors(fs: FileSystem, yaml: Loader, files: seq<string>): seq<BuildIssue> {
    Map(Filter(files, InvalidFilter(fs, yaml)), InvalidYaml)
  }

  /** A YAML error names a page that starts with `---` and has a closing
      `---` at index 3 or later: no other page has its front matter parsed. */
  lemma YamlErrorsNeedDelimiters(fs: FileSystem, yaml: Loader, files: seq<string>)
    ensures forall j :: 0 <= j < |YamlErrors(fs, yaml, files)| ==>
              var p := YamlErrors(fs, yaml, files)[j].file;
              && p in files && p in fs.text
              && StartsWith(fs.text[p], "---") && Find(fs.text[p], "---", 3) != -1
  {
    var invalid := Filter(files, InvalidFilter(fs, yaml));
    FilterMembership(files, InvalidFilter(fs, yaml));
    MapIndex(invalid, InvalidYaml);
    forall j | 0 <= j < |invalid| ensures invalid[j] in files && InvalidFrontMatter(fs, yaml, invalid[j]) {
      assert invalid[j] in invalid;
    }
  }

  datatype BuildSimulation = BuildSimulation(
    liquidSyntaxErrors: seq<BuildIssue>,
    yamlErrors: seq<BuildIssue>,
    markdownIssues: seq<BuildIssue>,
    totalIssues: nat,
    status: Status)

  function BuildSimulationOf(liquid: seq<BuildIssue>, yamlErrors: seq<BuildIssue>): (r: BuildSimulation)
    ensures r.status == Pass <==> liquid == [] && yamlErrors == []
    ensures r.status in {Pass, Warn}
    ensures r.totalIssues == |liquid| + |yamlErrors|
  {
    BuildSimulation(liquid, yamlErrors, [], |liquid| + |yamlErrors|,
                    if liquid == [] && yamlErrors == [] then Pass else Warn)
  }

  datatype DeploymentConfig = DeploymentConfig(githubActions: bool, pagesConfig: bool, domainConfig: bool)

  datatype ReadinessResults = ReadinessResults(
    requirements: BuildRequirements,
    requirementsStatus: Status,
    simulation: BuildSimulation,
    deployment: DeploymentConfig,
    deploymentStatus: Status)

  function ReadinessTests(fs: FileSystem, yaml: Loader, tree: seq<string>): ReadinessResults {
    var requirements := BuildRequirementsOf(fs, yaml);
    ReadinessResults(
      requirements, if requirements.configValid && requirements.pagesReady then Pass else Fail,
      BuildSimulationOf(LiquidSyntaxErrors(fs, Glob(tree, ".html")), YamlErrors(fs, yaml, Glob(tree, ".md"))),
      DeploymentConfig(fs.Exists(".github/workflows"), false, fs.Exists("CNAME")), Info)
  }

  /** The value `test_deployment_readiness` returns for its record. */
  predicate ReadinessPasses(r: ReadinessResults) {
    r.requirementsStatus == Pass && r.simulation.status in {Pass, Warn}
  }

  /** The build simulation can only pass or warn, so readiness is the build
      requirements alone. */
  lemma ReadinessIsRequirements(fs: FileSystem, yaml: Loader, tree: seq<string>)
    ensures ReadinessPasses(ReadinessTests(fs, yaml, tree)) <==> ConfigValid(fs, yaml) && fs.Exists(HomePage)
  {
  }

  function ValidFrontMatter(fs: FileSystem, yaml: Loader): string -> bool {
    (p: string) => !InvalidFrontMatter(fs, yaml, p)
  }

  /** The simulation warns exactly when the front matter of some page does
      not parse, since the Liquid check finds nothing. */
  lemma BuildSimulationPassIff(fs: FileSystem, yaml: Loader, tree: seq<string>)
    ensures ReadinessTests(fs, yaml, tree).simulation.status == Pass <==>
              forall i :: 0 <= i < |tree| && HasExtension(tree[i], ".md") ==> !InvalidFrontMatter(fs, yaml, tree[i])
  {
    NoLiquidSyntaxErrors(fs, Glob(tree, ".html"));
    var md := Glob(tree, ".md");
    FilterEmptyIff(md, InvalidFilter(fs, yaml));
    assert |YamlErrors(fs, yaml, md)| == |Filter(md, InvalidFilter(fs, yaml))|;
    GlobForall(tree, ".md", ValidFrontMatter(fs, yaml));
  }

  // ----- the report -----

  function Factor(b: bool): nat {
    if b then 1 else 0
  }

  /** The number of true `jekyll_factors`; a test not yet run scores nothing. */
  function JekyllFactors(r: Option<JekyllResults>): (n: nat)
    ensures n <= 3
  {
    match r
    case None => 0
    case Some(t) => Factor(t.config.validYaml) + Factor(t.config.compatible) + Factor(t.fileIssues.status == Pass)
  }

  function PagesFactors(r: Option<PagesResults>): (n: nat)
    ensures n <= 3
  {
    match r
    case None => 0
    case Some(t) => Factor(t.structureStatus == Pass) + Factor(t.settingsStatus == Pass) + Factor(t.limitations.status == Pass)
  }

  function SecurityFactors(r: Option<SecurityResults>): (n: nat)
    ensures n <= 3
  {
    match r
    case None => 0
    case Some(t) => Factor(t.httpStatus == Pass) + Factor(t.sensitiveStatus == Pass) + Factor(t.gitignoreStatus == Pass)
  }

  function ReadinessFactors(r: Option<ReadinessResults>): (n: nat)
    ensures n <= 2
  {
    match r
    case None => 0
    case Some(t) => Factor(t.requirementsStatus == Pass) + Factor(t.simulation.status in {Pass, Warn})
  }

  /** `overall_score > 0.8` with the four section scores j/3, g/3, s/3 and
      d/2, cleared of fractions. */
  predicate ReadyFrom(j: nat, g: nat, s: nat, d: nat) {
    2 * (j + g + s) + 3 * d >= 20
  }

  /** The integer criterion is the score threshold of the report. */
  lemma ReadyFromScore(j: nat, g: nat, s: nat, d: nat)
    requires j <= 3 && g <= 3 && s <= 3 && d <= 2
    ensures ReadyFrom(j, g, s, d) <==>
              ((j as real) / 3.0 + (g as real) / 3.0 + (s as real) / 3.0 + (d as real) / 2.0) / 4.0 > 0.8
  {
    var n := 2 * (j + g + s) + 3 * d;
    assert ((j as real) / 3.0 + (g as real) / 3.0 + (s as real) / 3.0 + (d as real) / 2.0) / 4.0 ==
           (n as real) / 24.0;
  }

  datatype DeploymentSummary = DeploymentSummary(
    jekyllFactors: nat, pagesFactors: nat, securityFactors: nat, readinessFactors: nat,
    deploymentReady: bool)

  function SummaryOf(j: Option<JekyllResults>, g: Option<PagesResults>,
                     s: Option<SecurityResults>, d: Option<ReadinessResults>): DeploymentSummary
  {
    var (jf, gf, sf, df) := (JekyllFactors(j), PagesFactors(g), SecurityFactors(s), ReadinessFactors(d));
    DeploymentSummary(jf, gf, sf, df, ReadyFrom(jf, gf, sf, df))
  }

  /** The readiness decision of a full run. */
  predicate Ready(fs: FileSystem, yaml: Loader, tree: seq<string>) {
    SummaryOf(Some(JekyllTests(fs, yaml, tree)), Some(PagesTests(fs, yaml, tree)),
              Some(SecurityTests(fs, tree)), Some(ReadinessTests(fs, yaml, tree))).deploymentReady
  }

  /** Each test's verdict is the full score of its section. */
  lemma JekyllVerdictIsFullScore(fs: FileSystem, yaml: Loader, tree: seq<string>)
    ensures JekyllFactors(Some(JekyllTests(fs, yaml, tree))) == 3 <==> JekyllPasses(JekyllTests(fs, yaml, tree))
  {
  }

  lemma PagesVerdictIsFullScore(fs: FileSystem, yaml: Loader, tree: seq<string>)
    ensures PagesFactors(Some(PagesTests(fs, yaml, tree))) == 3 <==> PagesPasses(PagesTests(fs, yaml, tree))
  {
  }

  lemma SecurityVerdictIsFullScore(fs: FileSystem, tree: seq<string>)
    ensures SecurityFactors(Some(SecurityTests(fs, tree))) == 3 <==> SecurityPasses(SecurityTests(fs, tree))
  {
  }

  lemma ReadinessScore(fs: FileSystem, yaml: Loader, tree: seq<string>)
    ensures ReadinessFactors(Some(ReadinessTests(fs, yaml, tree))) ==
              if ReadinessPasses(ReadinessTests(fs, yaml, tree)) then 2 else 1
  {
  }

  /** The site is ready when all four tests pass; it is also ready when the
      build requirements hold and at most two of the nine other factors fail,
      and not otherwise: with the requirements unmet every other factor must
      hold. */
  lemma ReadyCriterion(fs: FileSystem, yaml: Loader, tree: seq<string>)
    ensures Ready(fs, yaml, tree) <==>
              var t := SummaryOf(Some(JekyllTests(fs, yaml, tree)), Some(PagesTests(fs, yaml, tree)),
                                 Some(SecurityTests(fs, tree)), Some(ReadinessTests(fs, yaml, tree)));
              if ReadinessPasses(ReadinessTests(fs, yaml, tree))
              then t.jekyllFactors + t.pagesFactors + t.securityFactors >= 7
              else t.jekyllFactors + t.pagesFactors + t.securityFactors == 9
    ensures JekyllPasses(JekyllTests(fs, yaml, tree)) && PagesPasses(PagesTests(fs, yaml, tree)) &&
            SecurityPasses(SecurityTests(fs, tree)) && ReadinessPasses(ReadinessTests(fs, yaml, tree)) ==>
              Ready(fs, yaml, tree)
  {
    JekyllVerdictIsFullScore(fs, yaml, tree);
    PagesVerdictIsFullScore(fs, yaml, tree);
    SecurityVerdictIsFullScore(fs, tree);
    ReadinessScore(fs, yaml, tree);
  }

  // ----- the loops that collect the lists -----

  /** Globbing one more pattern appends its matches. */
  lemma GlobbedSnoc(tree: seq<string>, exts: seq<string>, e: nat)
    requires e < |exts|
    ensures Globbed(tree, exts[..e + 1]) == Globbed(tree, exts[..e]) + Glob(tree, exts[e])
  {
    assert exts[..e + 1][..e] == exts[..e];
  }

  /** The loop over the required and optional directories. */
  method CheckDirStructure(fs: FileSystem, names: seq<string>) returns (dirs: map<string, DirEntry>)
    ensures dirs == DirStructure(fs, names)
  {
    dirs := map[];
    for i := 0 to |names|
      invariant dirs == DirStructure(fs, names[..i])
    {
      assert names[..i + 1][..i] == names[..i];
      dirs := dirs[names[i] := DirEntry(fs.Exists(names[i]), names[i] in RequiredDirs)];
    }
    assert names[..|names|] == names;
  }

  /** `for pattern in ['*.php', '*.asp', '*.jsp']: for f in rglob(pattern): append(f)`; the
      inner loop appends the glob's matches in order. */
  method CollectProblematicFiles(tree: seq<string>) returns (found: seq<string>)
    ensures found == ProblematicFiles(tree)
  {
    found := [];
    for e := 0 to |ProblematicPatterns|
      invariant found == Globbed(tree, ProblematicPatterns[..e])
    {
      found := found + Glob(tree, ProblematicPatterns[e]);
      GlobbedSnoc(tree, ProblematicPatterns, e);
    }
    assert ProblematicPatterns[..|ProblematicPatterns|] == ProblematicPatterns;
  }

  method CollectLargeFiles(fs: FileSystem, tree: seq<string>) returns (large: seq<string>)
    ensures large == LargeFiles(fs, tree)
  {
    large := [];
    for i := 0 to |tree|
      invariant large == LargeFiles(fs, tree[..i])
    {
      var p := tree[i];
      assert tree[..i + 1] == tree[..i] + [p];
      FilterSnoc(tree[..i], p, LargeFilter(fs));
      if p in fs.files && p in fs.sizes {
        if fs.sizes[p] > MaxFileSize {
          large := large + [p];
        }
      }
    }
    assert tree[..|tree|] == tree;
  }

  method CollectPluginNames(fs: FileSystem, tree: seq<string>) returns (names: seq<string>)
    ensures names == CustomPlugins(fs, tree)
  {
    names := [];
    if fs.Exists(PluginsDir) {
      for i := 0 to |tree|
        invariant names == PluginNames(tree[..i])
      {
        var p := tree[i];
        if IsCustomPlugin(p) {
          names := names + [Paths.BaseName(p)];
        }
        assert tree[..i + 1][..i] == tree[..i];
      }
      assert tree[..|tree|] == tree;
    }
  }

  /** The server-side files among the matches of one pattern. */
  method CollectServerSideMatches(fs: FileSystem, files: seq<string>) returns (found: seq<string>)
    ensures found == Filter(files, ServerSideFilter(fs))
  {
    found := [];
    for i := 0 to |files|
      invariant found == Filter(files[..i], ServerSideFilter(fs))
    {
      var p := files[i];
      assert files[..i + 1] == files[..i] + [p];
      FilterSnoc(files[..i], p, ServerSideFilter(fs));
      if !ContainsAny(p, ExcludedParts) && p in fs.text {
        var content := Take(fs.text[p], ProbeLength);
        if ContainsAny(content, ServerSideKeywords) {
          found := found + [p];
        }
      }
    }
    assert files[..|files|] == files;
  }

  method CollectServerSideCode(fs: FileSystem, tree: seq<string>) returns (found: seq<string>)
    ensures found == ServerSideCode(fs, tree)
  {
    found := [];
    for e := 0 to |ServerSidePatterns|
      invariant found == Filter(Globbed(tree, ServerSidePatterns[..e]), ServerSideFilter(fs))
    {
      var more := CollectServerSideMatches(fs, Glob(tree, ServerSidePatterns[e]));
      found := found + more;
      GlobbedSnoc(tree, ServerSidePatterns, e);
      FilterAppend(Globbed(tree, ServerSidePatterns[..e]), Glob(tree, ServerSidePatterns[e]), ServerSideFilter(fs));
    }
    assert ServerSidePatterns[..|ServerSidePatterns|] == ServerSidePatterns;
  }

  /** `sum(f.stat().st_size for f in rglob('*') if f.is_file())`, abandoned
      at the first file `stat` fails on. */
  method EstimateRepoSize(fs: FileSystem, tree: seq<string>) returns (total: Option<nat>)
    ensures total == RepoSize(fs, tree)
  {
    var sum := 0;
    var i := 0;
    while i < |tree|
      invariant 0 <= i <= |tree|
      invariant RepoSize(fs, tree[..i]) == Some(sum)
    {
      var p := tree[i];
      assert tree[..i + 1][..i] == tree[..i];
      if p in fs.files {
        if p !in fs.sizes {
          RepoSizeNoneStays(fs, tree, i + 1);
          return None;
        }
        sum := sum + fs.sizes[p];
      }
      i := i + 1;
    }
    assert tree[..|tree|] == tree;
    return Some(sum);
  }

  lemma RepoSizeNoneStays(fs: FileSystem, tree: seq<string>, k: nat)
    requires k <= |tree| && RepoSize(fs, tree[..k]).None?
    ensures RepoSize(fs, tree).None?
  {
    var i :| 0 <= i < k && tree[..k][i] in fs.files && tree[..k][i] !in fs.sizes;
    assert tree[i] == tree[..k][i];
  }

  /** `for match in re.findall(r'http://...', content): append`. */
  method CollectFileLinks(p: string, urls: seq<string>) returns (links: seq<HttpLink>)
    ensures links == Map(urls, LinkOf(p))
  {
    links := [];
    for k := 0 to |urls|
      invariant links == Map(urls[..k], LinkOf(p))
    {
      assert urls[..k + 1] == urls[..k] + [urls[k]];
      MapSnoc(urls[..k], urls[k], LinkOf(p));
      links := links + [HttpLink(p, urls[k])];
    }
    assert urls[..|urls|] == urls;
  }

  /** `for match in script_matches: if match.startswith('http'): append`. */
  method CollectFileScripts(p: string, srcs: seq<string>) returns (scripts: seq<ExternalScript>)
    ensures scripts == Map(Filter(srcs, RemoteTest()), ScriptOf(p))
  {
    scripts := [];
    for k := 0 to |srcs|
      invariant scripts == Map(Filter(srcs[..k], RemoteTest()), ScriptOf(p))
    {
      assert srcs[..k + 1] == srcs[..k] + [srcs[k]];
      FilterSnoc(srcs[..k], srcs[k], RemoteTest());
      if StartsWith(srcs[k], "http") {
        MapSnoc(Filter(srcs[..k], RemoteTest()), srcs[k], ScriptOf(p));
        scripts := scripts + [ExternalScript(p, srcs[k])];
      } else {
        assert Filter(srcs[..k], RemoteTest()) + [] == Filter(srcs[..k], RemoteTest());
      }
    }
    assert srcs[..|srcs|] == srcs;
  }

  /** The links and external scripts of the matches of one page pattern,
      file by file. */
  method CollectPageRefs(fs: FileSystem, files: seq<string>)
    returns (links: seq<HttpLink>, scripts: seq<ExternalScript>)
    ensures links == HttpLinkRecords(fs, files)
    ensures scripts == ExternalScriptRecords(fs, files)
  {
    links, scripts := [], [];
    for i := 0 to |files|
      invariant links == FlatMap(files[..i], LinksOf(fs))
      invariant scripts == FlatMap(files[..i], ScriptsOf(fs))
    {
      var p := files[i];
      LinksSnoc(fs, files, i);
      ScriptsSnoc(fs, files, i);
      if !Contains(p, "_site") && p in fs.text {
        var content := fs.text[p];
        var urls := Patterns.HttpLinks(content);
        var found := CollectFileLinks(p, urls);
        links := links + found;
        var srcs := Captures.ScriptSources(content);
        var remote := CollectFileScripts(p, srcs);
        scripts := scripts + remote;
      } else {
        assert links + [] == links;
        assert scripts + [] == scripts;
      }
    }
    assert files[..|files|] == files;
  }

  /** The loops over the `.html` and then the `.md` pages. */
  method CollectExternalRefs(fs: FileSystem, tree: seq<string>)
    returns (links: seq<HttpLink>, scripts: seq<ExternalScript>)
    ensures links == HttpLinkRecords(fs, Globbed(tree, PagePatterns))
    ensures scripts == ExternalScriptRecords(fs, Globbed(tree, PagePatterns))
  {
    links, scripts := [], [];
    for e := 0 to |PagePatterns|
      invariant links == HttpLinkRecords(fs, Globbed(tree, PagePatterns[..e]))
      invariant scripts == ExternalScriptRecords(fs, Globbed(tree, PagePatterns[..e]))
    {
      var moreLinks, moreScripts := CollectPageRefs(fs, Glob(tree, PagePatterns[e]));
      links := links + moreLinks;
      scripts := scripts + moreScripts;
      GlobbedSnoc(tree, PagePatterns, e);
      FlatMapAppend(Globbed(tree, PagePatterns[..e]), Glob(tree, PagePatterns[e]), LinksOf(fs));
      FlatMapAppend(Globbed(tree, PagePatterns[..e]), Glob(tree, PagePatterns[e]), ScriptsOf(fs));
    }
    assert PagePatterns[..|PagePatterns|] == PagePatterns;
  }

  /** The findings of one pattern for its matches in one file, match by match. */
  method CollectPatternFindings(p: string, secret: Patterns.Secret, matches: seq<string>) returns (findings: seq<Finding>)
    ensures findings == Map(matches, FindingOf(p, secret))
  {
    findings := [];
    var pattern := secret.Pattern();
    for m := 0 to |matches|
      invariant findings == Map(matches[..m], FindingOf(p, secret))
    {
      assert matches[..m + 1] == matches[..m] + [matches[m]];
      MapSnoc(matches[..m], matches[m], FindingOf(p, secret));
      findings := findings + [Finding(p, pattern, Context(matches[m]))];
    }
    assert matches[..|matches|] == matches;
  }

  method FindingsForSecret(p: string, content: string, secret: Patterns.Secret) returns (found: seq<Finding>)
    ensures found == SecretFindings(p, content, secret)
  {
    var matches := Patterns.SecretMatches(content, secret);
    found := CollectPatternFindings(p, secret, matches);
  }

  lemma FileFindingsStep(p: string, content: string, secrets: seq<Patterns.Secret>, k: nat)
    requires k < |secrets|
    ensures FlatMap(secrets[..k + 1], PatternFindings(p, content)) ==
            FlatMap(secrets[..k], PatternFindings(p, content)) + SecretFindings(p, content, secrets[k])
  {
    assert secrets[..k + 1] == secrets[..k] + [secrets[k]];
    FlatMapSnoc(secrets[..k], secrets[k], PatternFindings(p, content));
  }

  /** The findings of the patterns in one file, pattern by pattern. */
  method CollectFileFindings(p: string, content: string, secrets: seq<Patterns.Secret>)
    returns (findings: seq<Finding>)
    ensures findings == FlatMap(secrets, PatternFindings(p, content))
  {
    findings := [];
    for k := 0 to |secrets|
      invariant findings == FlatMap(secrets[..k], PatternFindings(p, content))
    {
      var found := FindingsForSecret(p, content, secrets[k]);
      FileFindingsStep(p, content, secrets, k);
      findings := findings + found;
    }
    assert secrets[..|secrets|] == secrets;
  }

  method CollectSensitiveFindings(fs: FileSystem, tree: seq<string>) returns (findings: seq<Finding>)
    ensures findings == SensitiveFindings(fs, tree)
  {
    findings := [];
    for i := 0 to |tree|
      invariant findings == SensitiveFindings(fs, tree[..i])
    {
      var p := tree[i];
      assert tree[..i + 1] == tree[..i] + [p];
      FlatMapSnoc(tree[..i], p, FindingsOf(fs));
      if p in fs.files && Paths.Suffix(p) in SensitiveSuffixes && !Contains(p, "_site") && p in fs.text {
        var found := CollectFileFindings(p, fs.text[p], Patterns.Secrets);
        findings := findings + found;
      }
    }
    assert tree[..|tree|] == tree;
  }

  /** `for tag in liquid_tags: if not tag.strip().endswith('%}'): append`. */
  method CollectMalformedTags(p: string, tags: seq<string>) returns (errors: seq<BuildIssue>)
    ensures errors == Map(Filter(tags, MalformedTag), MalformedLiquid(p))
  {
    errors := [];
    for k := 0 to |tags|
      invariant errors == Map(Filter(tags[..k], MalformedTag), MalformedLiquid(p))
    {
      var tag := tags[k];
      assert tags[..k + 1] == tags[..k] + [tag];
      FilterSnoc(tags[..k], tag, MalformedTag);
      if !EndsWith(Strip(tag), "%}") {
        MapSnoc(Filter(tags[..k], MalformedTag), tag, MalformedLiquid(p));
        errors := errors + [BuildIssue(p, "Malformed Liquid tag")];
      } else {
        assert Filter(tags[..k], MalformedTag) + [] == Filter(tags[..k], MalformedTag);
      }
    }
    assert tags[..|tags|] == tags;
  }

  method CollectLiquidErrors(fs: FileSystem, files: seq<string>) returns (errors: seq<BuildIssue>)
    ensures errors == LiquidSyntaxErrors(fs, files)
  {
    errors := [];
    for i := 0 to |files|
      invariant errors == LiquidSyntaxErrors(fs, files[..i])
    {
      var p := files[i];
      assert files[..i + 1] == files[..i] + [p];
      FlatMapSnoc(files[..i], p, LiquidIssuesOf(fs));
      if !Contains(p, "_site") && p in fs.text {
        var found := CollectMalformedTags(p, Patterns.LiquidTags(fs.text[p]));
        errors := errors + found;
      }
    }
    assert files[..|files|] == files;
  }

  method CollectYamlErrors(fs: FileSystem, yaml: Loader, files: seq<string>) returns (errors: seq<BuildIssue>)
    ensures errors == YamlErrors(fs, yaml, files)
  {
    errors := [];
    for i := 0 to |files|
      invariant errors == YamlErrors(fs, yaml, files[..i])
    {
      var p := files[i];
      assert files[..i + 1] == files[..i] + [p];
      FilterSnoc(files[..i], p, InvalidFilter(fs, yaml));
      var invalid := Filter(files[..i], InvalidFilter(fs, yaml));
      assert invalid + [] == invalid;
      if !Contains(p, "_site") && p in fs.text {
        var content := fs.text[p];
        if StartsWith(content, "---") {
          var frontMatterEnd := Find(content, "---", 3);
          if frontMatterEnd != -1 {
            var frontMatter := content[3..frontMatterEnd];
            if yaml.frontMatter(frontMatter).Malformed? {
              MapSnoc(invalid, p, InvalidYaml);
              errors := errors + [InvalidYaml(p)];
            }
          }
        }
      }
    }
    assert files[..|files|] == files;
  }

  // ----- the test object -----

  class GitHubPagesDeploymentTest {
    var jekyllTests: Option<JekyllResults>
    var githubPagesTests: Option<PagesResults>
    var securityTests: Option<SecurityResults>
    var deploymentTests: Option<ReadinessResults>
    var summary: Option<DeploymentSummary>

    constructor()
      ensures jekyllTests == None && githubPagesTests == None && securityTests == None
      ensures deploymentTests == None && summary == None
    {
      jekyllTests := None;
      githubPagesTests := None;
      securityTests := None;
      deploymentTests := None;
      summary := None;
    }

    method TestJekyllBuildCompatibility(fs: FileSystem, yaml: Loader, tree: seq<string>) returns (r: bool)
      modifies this
      ensures jekyllTests == Some(JekyllTests(fs, yaml, tree))
      ensures githubPagesTests == old(githubPagesTests) && securityTests == old(securityTests)
      ensures deploymentTests == old(deploymentTests) && summary == old(summary)
      ensures r == JekyllPasses(JekyllTests(fs, yaml, tree))
    {
      var (config, configError) := JekyllConfigCheck(fs, yaml);
      var dirs := CheckDirStructure(fs, RequiredDirs + OptionalDirs);
      var problematic := CollectProblematicFiles(tree);
      var large := CollectLargeFiles(fs, tree);
      jekyllTests := Some(JekyllResults(config, configError, dirs, FileIssuesOf(problematic, large)));
      r := config.validYaml && config.compatible && problematic == [] && large == [];
    }

    method TestGitHubPagesRequirements(fs: FileSystem, yaml: Loader, tree: seq<string>) returns (r: bool)
      modifies this
      ensures githubPagesTests == Some(PagesTests(fs, yaml, tree))
      ensures jekyllTests == old(jekyllTests) && securityTests == old(securityTests)
      ensures deploymentTests == old(deploymentTests) && summary == old(summary)
      ensures r == PagesPasses(PagesTests(fs, yaml, tree))
    {
      var structure := RepoStructureOf(fs);
      var (settings, configError) := PagesSettingsCheck(fs, yaml);
      var plugins := CollectPluginNames(fs, tree);
      var serverSide := CollectServerSideCode(fs, tree);
      var size := EstimateRepoSize(fs, tree);
      var largeRepo := size.Some? && size.value > MaxRepoSize;
      var structureStatus := if structure.hasReadme then Pass else Warn;
      var settingsStatus := if settings.urlSet && settings.safeMode then Pass else Warn;
      var limitations := LimitationsOf(plugins, serverSide, largeRepo);
      githubPagesTests := Some(PagesResults(structure, structureStatus, settings, configError,
                                            settingsStatus, limitations));
      r := structureStatus == Pass && settingsStatus == Pass && limitations.status == Pass;
    }

    method TestSecurityCompliance(fs: FileSystem, tree: seq<string>) returns (r: bool)
      modifies this
      ensures securityTests == Some(SecurityTests(fs, tree))
      ensures jekyllTests == old(jekyllTests) && githubPagesTests == old(githubPagesTests)
      ensures deploymentTests == old(deploymentTests) && summary == old(summary)
      ensures r == SecurityPasses(SecurityTests(fs, tree))
    {
      var links, scripts := CollectExternalRefs(fs, tree);
      var findings := CollectSensitiveFindings(fs, tree);
      var gitignore := GitignoreCheck(fs);
      securityTests := Some(SecurityResults(links, scripts, if |links| == 0 then Pass else Warn,
                                            findings, if |findings| == 0 then Pass else Fail,
                                            gitignore, if gitignore.present then Pass else Warn));
      r := |links| == 0 && |findings| == 0 && gitignore.present;
    }

    method TestDeploymentReadiness(fs: FileSystem, yaml: Loader, tree: seq<string>) returns (r: bool)
      modifies this
      ensures deploymentTests == Some(ReadinessTests(fs, yaml, tree))
      ensures jekyllTests == old(jekyllTests) && githubPagesTests == old(githubPagesTests)
      ensures securityTests == old(securityTests) && summary == old(summary)
      ensures r == ReadinessPasses(ReadinessTests(fs, yaml, tree))
    {
      var requirements := BuildRequirementsOf(fs, yaml);
      var requirementsStatus := if requirements.configValid && requirements.pagesReady then Pass else Fail;
      var liquid := CollectLiquidErrors(fs, Glob(tree, ".html"));
      var yamlErrors := CollectYamlErrors(fs, yaml, Glob(tree, ".md"));
      var simulation := BuildSimulationOf(liquid, yamlErrors);
      var deployment := DeploymentConfig(fs.Exists(".github/workflows"), false, fs.Exists("CNAME"));
      deploymentTests := Some(ReadinessResults(requirements, requirementsStatus, simulation, deployment, Info));
      r := requirementsStatus == Pass && simulation.status in {Pass, Warn};
    }

    method GenerateDeploymentReport() returns (ready: bool)
      modifies this
      ensures summary == Some(SummaryOf(jekyllTests, githubPagesTests, securityTests, deploymentTests))
      ensures jekyllTests == old(jekyllTests) && githubPagesTests == old(githubPagesTests)
      ensures securityTests == old(securityTests) && deploymentTests == old(deploymentTests)
      ensures ready == summary.value.deploymentReady
    {
      var s := SummaryOf(jekyllTests, githubPagesTests, securityTests, deploymentTests);
      summary := Some(s);
      ready := s.deploymentReady;
    }
  }

  /** `main`: run the four tests in order, write the report, exit 0 when the
      site is ready and 1 otherwise. */
  method RunDeploymentTests(fs: FileSystem, yaml: Loader, tree: seq<string>) returns (code: int)
    ensures code == if Ready(fs, yaml, tree) then 0 else 1
  {
    var tester := new GitHubPagesDeploymentTest();
    var testsPassed: seq<bool> := [];
    var passed := tester.TestJekyllBuildCompatibility(fs, yaml, tree);
    testsPassed := testsPassed + [passed];
    passed := tester.TestGitHubPagesRequirements(fs, yaml, tree);
    testsPassed := testsPassed + [passed];
    passed := tester.TestSecurityCompliance(fs, tree);
    testsPassed := testsPassed + [passed];
    passed := tester.TestDeploymentReadiness(fs, yaml, tree);
    testsPassed := testsPassed + [passed];
    var ready := tester.GenerateDeploymentReport();
    code := if ready then 0 else 1;
  }
}
