# A verified model of the site's validation scripts

The site is a Jekyll project for GitHub Pages. It ships a set of Python
scripts that inspect its working tree before deployment. This project
models their core in Dafny and proves properties of that model:

- the navigation verifier (`Navigation`), which checks that each entry of
  `_data/navigation.yml` names a page whose front matter carries that URL as
  its permalink;
- the functional test suite (`Functional`): navigation links, page content
  integrity and Jekyll compatibility, with the stored result tables and the
  report's verdict;
- the GitHub Pages compatibility check (`Compatibility`, with the labelled
  issue lists of `Issues`): the required fields and plugin allow-list of
  `_config.yml`, the plugins of the `Gemfile`, the pages the navigation
  points to, plain-HTTP links in the HTML and Markdown files, and the ERROR
  count, which `exit` turns into the exit status modulo 256;
- the deployment test (`Deployment`): the configuration and its plugins,
  the directory structure, problematic (`.php`, `.asp`, `.jsp`) and large
  files, the Pages settings and limitations (custom plugins, server-side
  code, the repository size), security (plain-HTTP links, external
  scripts, secret-looking assignments, `.gitignore`), build readiness (configuration, about page,
  Liquid tags, front-matter YAML), and the readiness decision weighing the
  four results;
- the resource validator (`Resources`): the avatar named in `_config.yml`,
  the stylesheets linked from `_includes/head.html`, the scripts loaded by
  `_includes/scripts.html`, the images referenced by the pages of `_pages`,
  the Font Awesome sources, and the ERROR count, which `exit` turns into the
  exit status modulo 256;
- the browser compatibility test (`Browser`): responsive features and the
  search for the viewport declaration, CSS feature categories and vendor
  prefixes, semantic tags and accessibility attributes, performance
  settings and optimized images, and the summary whose status is PASS or
  PARTIAL;
- the performance and SEO test (`Performance`, `Seo`, `Mobile`,
  `PerformanceSeo`): image sizes and formats, stylesheet sizes, SEO
  configuration and page metadata, structured data, responsive features and
  mobile optimizations, and the weighted overall status;
- the performance optimizer (`Optimizer`): stylesheet issues, HTML
  template issues, large and unoptimized images, and the exit status.

The working tree is a value, `Site.FileSystem`: the set of files, the set
of directories, the text of each readable file, the files that open but do
not decode as UTF-8, and the size of each file.
Directory listings (`os.listdir`, `Path.glob`, `rglob`, `os.walk`) are
inputs of type `Listings.Listing` or `Optimizer.Walk`, so their order is
taken as given. YAML parsing is an input too (`Yaml.Loader`): it yields the
document shapes the scripts tell apart (a parse error, another error of
the loader such as PyYAML's `ValueError` for a date-like value that is no
date, an empty document,
a navigation mapping whose `main` is not a list, a mapping whose other
entries of interest are absent, null or strings), and the
model states what each script does with each of them; the shapes it cannot
express are listed under "Left out". An
exception a script catches becomes the value the handler produces. One it
does not catch becomes `Raised`.

Text helpers mirror the Python built-ins the scripts rely on: `find`,
`count`, `split`, `strip`, `startswith`, `endswith`, ASCII `lower`, UTF-8
length, the `pathlib`/`os.path` name functions, and `pathlib`'s join,
which drops the empty and `.` components of a relative path. `Patterns` and
`Captures` model the regular expressions the scripts use as
leftmost-longest or leftmost-shortest scanners, with a lemma for each
pattern that pins down the text a match covers.

Floating-point scores are replaced by exact integer comparisons, each
equivalent to the source's threshold in exact arithmetic (one exception is
listed under "Left out"). For example, "the mean of
`a/3`, `b/3` and `c/2` is above 0.7" becomes `2a + 2b + 3c >= 13`.

## Model

| member | source | states |
|---|---|---|
| FrontMatter.BySplit | verify_navigation.py:19-22 | the split-based front matter exists exactly when the text starts with `---` |
| FrontMatter.SplitKeepsSecondPart | verify_navigation.py:20-22 | after a leading `---` the two-way split always has a second part, the text up to the next `---` or the whole rest |
| FrontMatter.ByFind | functional_test_suite.py:73-76 | the find-based front matter exists exactly when the text starts with `---` and a second `---` follows; it holds no `---` and is followed by one |
| FrontMatter.NoDelimiterBefore | functional_test_suite.py:74-76 | the slice before the first closing `---` contains no `---` |
| FrontMatter.ExtractorsAgree | verify_navigation.py:19-22 | with a closing delimiter the split-based and find-based extractors give the same front matter, the text between the two delimiters |
| FrontMatter.UnclosedFrontMatter | verify_navigation.py:19-22 | without a closing delimiter the split-based extractor takes the whole rest of the text and the find-based one gives none |
| FrontMatter.NoOpeningDelimiter | functional_test_suite.py:73 | without a leading `---` neither extractor finds front matter |
| Navigation.ExtractPermalink | verify_navigation.py:12-30 | a permalink is found only in a readable file starting with `---`, and it is what its split-based front matter parses to; every failure gives None |
| Navigation.ExtractClosed | verify_navigation.py:19-25 | with a closing delimiter the permalink comes from the same front matter the other scripts cut out |
| Navigation.ExtractUnclosed | verify_navigation.py:19-25 | without a closing delimiter the rest of the file after `---` is parsed as the front matter |
| Navigation.HomeConsultsOnlyAbout | verify_navigation.py:59-71 | the verdict on the `/` entry depends only on `_pages/about.md`, not on the listing or other pages |
| Navigation.NullUrlMatchesPageWithoutPermalink | verify_navigation.py:75-90 | an entry with a null `url` is valid as soon as some `.md` page of the listing has no extractable permalink |
| Navigation.NonMarkdownIgnored | verify_navigation.py:81-88 | a listing entry not ending in `.md` never changes a verdict |
| Navigation.FindPage | verify_navigation.py:78-88 | the search returns the first listing entry that is a `.md` page whose permalink equals the wanted URL (for a null URL, a page without one), and None only when no entry matches |
| Navigation.FirstListed | verify_navigation.py:59-90 | the entries the verifier judges before it first lists `_pages`: all have URL `/`, and the next one does not |
| Navigation.VerifyNavigation | verify_navigation.py:32-104 | False when the navigation file is missing; an exception when it cannot be loaded, is empty or has a `main` that is not a list, or when `_pages` exists but is no directory and an entry other than `/` is reached; otherwise one verdict per entry, each the entry's validity, and the result is their conjunction |
| Navigation.MarkdownOnlyMultiset | verify_navigation.py:113-114 | the `.md` entries are kept with all their copies and nothing else is kept |
| Navigation.MarkdownOnlyMembers | verify_navigation.py:113-114 | every kept entry comes from the listing |
| Navigation.MarkdownOnlySorted | verify_navigation.py:113-114 | filtering a sorted listing keeps it sorted |
| Navigation.ListAllPages | verify_navigation.py:106-117 | no rows without `_pages`; an exception exactly when `_pages` exists but is no directory; otherwise the `.md` entries in ascending order with their multiplicities, each with its extracted permalink |
| Navigation.ReadPages | verify_navigation.py:113-117 | the loop emits a row for each `.md` entry, in order, with its permalink |
| Navigation.ExitStatus | verify_navigation.py:119-128 | the status is 0 after a successful verification and 1 after a failed one or an exception |
| Navigation.RunNavigation | verify_navigation.py:119-128 | the exit status is 0 exactly when the navigation file exists and loads, every entry is valid and `_pages` can be listed, and 1 otherwise |
| Functional.AllPassedIff | functional_test_suite.py:95-100 | over a table of records, `passed == total` holds exactly when every record passes |
| Functional.ReportPassedIff | functional_test_suite.py:327-342 | the report's `passed == total` ignores bare messages and holds exactly when every record passes |
| Functional.NavigationPath | functional_test_suite.py:55-61 | `/` maps to the about page, and every other URL maps to a `.md` file under `_pages/`, the stripped URL joined as `pathlib` joins it |
| Functional.NavigationPathDropsDot | functional_test_suite.py:59-61 | the stored `file_path` is normalised: `/a/./b/` and `/a/b/` both give `_pages/a/b.md` |
| Functional.NavigationPathIgnoresSlashes | functional_test_suite.py:59-61 | slashes around a URL other than `/` do not change the page it maps to |
| Functional.NavigationEntry | functional_test_suite.py:52-88 | an entry with a null `url` raises; otherwise its record is PASS exactly when its page exists and its find-based front matter contains `permalink: <url>`, and FAIL otherwise |
| Functional.NavigationTable | functional_test_suite.py:47-93 | building the table raises exactly when some entry has a null `url`; otherwise it holds navigation records only |
| Functional.NavigationTableKeys | functional_test_suite.py:82 | without a null `url` the table is built and its keys are exactly the entries' titles, None standing for a null title |
| Functional.NavigationTableLastWins | functional_test_suite.py:82-88 | without a null `url`, under each title the table holds the record of the last entry with that title |
| Functional.EmptyNavigationPasses | functional_test_suite.py:96-100 | an empty navigation list gives an empty table, which counts as passing |
| Functional.ContentStep | functional_test_suite.py:119-181 | a missing page is a FAIL record without content fields, an unreadable one ERROR, and every record is PASS, FAIL or ERROR; a content record holds the page's length, whether it has a Markdown image and whether it has a Markdown link, and an image implies a link |
| Functional.ContentPassIff | functional_test_suite.py:135-170 | a page passes exactly when it exists, can be read and is well formed: closed front matter with `permalink:`, `title:` and `excerpt:`, and a stripped body over 100 characters |
| Functional.StaleFrontMatterEnd | functional_test_suite.py:143-152 | a page without a leading `---` reuses the previous page's `front_matter_end`, and is ERROR exactly when no earlier page set it |
| Functional.ContentRun | functional_test_suite.py:111-183 | the content table has exactly the required page names as keys and holds records only |
| Functional.PluginsCompatible | functional_test_suite.py:206-213 | the plugins are compatible exactly when each is one of the eight GitHub Pages plugins |
| Functional.ConfigEntry | functional_test_suite.py:198-237 | the config record is PASS exactly when the configuration loads and its plugins are compatible |
| Functional.UnsupportedFeatures | functional_test_suite.py:240-245 | raises exactly when `_plugins` exists but is no directory; otherwise at most one unsupported feature, present exactly when `_plugins` exists and has entries |
| Functional.BuildNavigationTable | functional_test_suite.py:47-93 | the loop builds the navigation table, raising at the first entry with a null `url` |
| Functional.FunctionalTestSuite.constructor | functional_test_suite.py:18-26 | all result tables start empty and there is no summary |
| Functional.FunctionalTestSuite.TestNavigationLinks | functional_test_suite.py:37-100 | stores the error message, or the navigation table, and returns whether every entry passed; it raises and stores nothing when loading raises, `main` is not a list, or an entry has a null `url`; the other tables are unchanged |
| Functional.FunctionalTestSuite.TestPageContentIntegrity | functional_test_suite.py:102-190 | stores the error message when `_pages` is missing, else the content table with every field of each record, and returns whether every page passed |
| Functional.FunctionalTestSuite.TestJekyllCompatibility | functional_test_suite.py:192-259 | raises and stores nothing when `_plugins` exists but is no directory; otherwise stores the config and compatibility records, and returns True exactly when there are no custom plugins |
| Functional.FunctionalTestSuite.GenerateReport | functional_test_suite.py:323-357 | the summary's pass counts are at most its totals, and the verdict is PASS exactly when every record of both tables passes |
| Functional.RunSuite | functional_test_suite.py:359-386 | the exit status is 0 exactly when loading the navigation does not raise (a missing or empty file counts as no entries) and no entry has a null `url`, every navigation record passes, every content record passes, and `_plugins` is absent or a directory |
| Issues.Labels | github_pages_compatibility_check.py:177-179 | an `ERROR: `, `WARNING: ` or `INFO: ` message passes exactly one of the three prefix tests |
| Issues.WithPrefix | github_pages_compatibility_check.py:177-179 | the filtered list is no longer than the issue list |
| Issues.WithPrefixMultiset | github_pages_compatibility_check.py:177-179 | the filter keeps every copy of an issue with the prefix and no other issue |
| Issues.WithPrefixAppend | github_pages_compatibility_check.py:157-169 | filtering the extended issue list is filtering each check's issues in turn |
| Issues.Partition | github_pages_compatibility_check.py:177-179 | over labelled issues the error, warning and note lists together have as many items as the issue list |
| Issues.WarningsOnly | github_pages_compatibility_check.py:177-178 | a list of warnings holds no error and no note |
| Issues.NoErrorsAmong | validate_resources.py:152 | a list with no `ERROR` issue has an empty error list |
| Issues.AllErrors | validate_resources.py:152 | a list of errors is its own error list |
| Issues.ExitStatus | github_pages_compatibility_check.py:199-201 | `exit(n)` gives a status below 256, equal to `n` when `n` is below 256 |
| Compatibility.Unsupported | github_pages_compatibility_check.py:51-54 | the unsupported plugins are exactly the configured plugins missing from the fourteen supported ones |
| Compatibility.FieldWarningsSpec | github_pages_compatibility_check.py:27-31 | one WARNING per required field the configuration lacks |
| Compatibility.PluginWarningsSpec | github_pages_compatibility_check.py:51-54 | one warning per unsupported plugin, in plugin order |
| Compatibility.MissingConfig | github_pages_compatibility_check.py:16-18 | a missing `_config.yml` gives exactly one issue, an ERROR |
| Compatibility.PluginWarningsAreWarnings | github_pages_compatibility_check.py:53-54 | every plugin issue is a WARNING |
| Compatibility.ParsedConfigWarnsOnly | github_pages_compatibility_check.py:27-63 | a parsed configuration gives no ERROR, and one INFO exactly when `baseurl` is missing |
| Compatibility.CollectFieldWarnings | github_pages_compatibility_check.py:28-31 | the loop gives the field warnings |
| Compatibility.CollectPluginWarnings | github_pages_compatibility_check.py:51-54 | the loop gives the plugin warnings |
| Compatibility.CheckConfigYml | github_pages_compatibility_check.py:12-63 | the method computes the configuration check: the missing-file ERROR, the YAML ERROR, or the field, plugin, `url` and `baseurl` issues in order; it raises when the file cannot be read, the loader raises an error that is no YAML error, or the document is empty |
| Compatibility.GemWarningsAreWarnings | github_pages_compatibility_check.py:86-88 | at most one warning per unsupported-gem pattern, each a WARNING |
| Compatibility.CheckGemfile | github_pages_compatibility_check.py:65-90 | the method computes the Gemfile check: a WARNING when the Gemfile is missing, else one for a missing `github-pages` gem and one per unsupported gem declared |
| Compatibility.GemfileWarnsOnly | github_pages_compatibility_check.py:65-90 | the Gemfile check reports warnings only |
| Compatibility.PageIssuesAreErrors | github_pages_compatibility_check.py:108-115 | at most one issue per navigation entry, each an ERROR |
| Compatibility.PageIssuesEmptyIff | github_pages_compatibility_check.py:108-115 | there is no page issue exactly when every URL that starts with `/` and is not `/` has its page |
| Compatibility.ExpectedPage | github_pages_compatibility_check.py:112-113 | the expected page is a `.md` file under `_pages/`, the stripped URL joined as `pathlib` joins it |
| Compatibility.ExpectedPageCollapsesSlashes | github_pages_compatibility_check.py:112-115 | the printed and tested path is normalised: `/a//b/` and `/a/b/` both give `_pages/a/b.md` |
| Compatibility.CheckPagesStructure | github_pages_compatibility_check.py:92-119 | the method computes the page-structure check: a WARNING without `_pages`, a YAML ERROR, or the missing-page errors naming the normalised path; it raises when the navigation file cannot be read, the loader raises an error that is no YAML error, the document is empty, has a `main` that is not a list, or has an entry with a null `url` |
| Compatibility.ResourceIssue | github_pages_compatibility_check.py:136-144 | a walked file gives at most one warning, present exactly when it is a readable `.html`/`.md` file holding `http://` not followed by `localhost` or `127.0.0.1` |
| Compatibility.ResourceIssuesSpec | github_pages_compatibility_check.py:136-146 | at most one warning per walked file, and warnings only |
| Compatibility.CollectPageFiles | github_pages_compatibility_check.py:127-132 | the collected files are `.html`/`.md` files, give the same warnings as the whole walk, and include an unopenable page file exactly when the walk does |
| Compatibility.ScanPageFiles | github_pages_compatibility_check.py:136-144 | the loop raises exactly when a collected file cannot be opened for a reason other than its encoding; otherwise it gives the warnings of the collected files, skipping those that do not decode |
| Compatibility.CheckExternalResources | github_pages_compatibility_check.py:121-146 | the check raises exactly when a walked page file cannot be opened for a reason other than its encoding; otherwise it gives the external-resource warnings of the walk |
| Compatibility.ErrorCountFromConfigAndPages | github_pages_compatibility_check.py:153-197 | only the configuration and page-structure checks contribute to the ERROR count |
| Compatibility.ErrorsSkipWarnings | github_pages_compatibility_check.py:157-169 | lists of warnings between two issue lists add no error |
| Compatibility.RunChecks | github_pages_compatibility_check.py:148-197 | `main` returns the number of issues starting with `ERROR`, or raises when one of the four checks raises |
| Compatibility.RunCompatibilityCheck | github_pages_compatibility_check.py:199-201 | the exit status is 1 after an exception and otherwise the ERROR count modulo 256 |
| Compatibility.LoaderFailureRaises | github_pages_compatibility_check.py:21-25 | a loader error other than a `YAMLError`, in the configuration or the navigation file, escapes the handler, so the whole run raises (exit status 1) |
| Deployment.GlobbedMembership | github_pages_deployment_test.py:95-97 | a path is among the matches of several patterns exactly when it is in the walk and its last component ends in one of the extensions |
| Deployment.GlobbedEmptyIff | github_pages_deployment_test.py:95-97 | no pattern matches exactly when no walked path has one of the extensions |
| Deployment.GlobForall | github_pages_deployment_test.py:432-453 | a property holds of every match of one pattern exactly when it holds of every walked path with that extension |
| Deployment.GlobbedForall | github_pages_deployment_test.py:253-256 | the same for the matches of several patterns |
| Deployment.IncompatibleSpec | github_pages_deployment_test.py:62-69 | the incompatible plugins are the plugins off the eight-plugin allow-list, each as often as listed, and there are none exactly when the functional suite's plugin test passes |
| Deployment.JekyllConfigCheck | github_pages_deployment_test.py:33-75 | the YAML is valid exactly when the file is read and the loader returns without any error; compatible exactly when it is a mapping with no incompatible plugin; each required field is flagged by its presence; a `config_error` is stored exactly when the file exists but is no mapping |
| Deployment.DirStructure | github_pages_deployment_test.py:77-89 | the directory map has exactly the seven directories as keys, each with its existence and whether it is required |
| Deployment.FileIssuesOf | github_pages_deployment_test.py:113-117 | the file-issue status is PASS exactly when there is no problematic and no large file, and WARN otherwise |
| Deployment.JekyllPassesIff | github_pages_deployment_test.py:126-128 | the Jekyll test passes exactly when the configuration is a mapping whose plugins are all allowed, no walked path ends in `.php`, `.asp` or `.jsp`, and no file is over 100 MiB |
| Deployment.PagesSettingsCheck | github_pages_deployment_test.py:150-184 | `url_set`, `baseurl_set` and `github_metadata` are the key and plugin tests on a mapping configuration; safe mode is off exactly when the mapping sets `safe` to false; a `config_error` is stored exactly when the file exists but is no mapping |
| Deployment.PluginNames | github_pages_deployment_test.py:194-197 | every custom plugin name ends in `.rb` and is a bare file name |
| Deployment.PluginNamesEmptyIff | github_pages_deployment_test.py:194-197 | there is no custom plugin exactly when no walked path is a `*.rb` file directly inside `_plugins` |
| Deployment.ServerSideCodeEmptyIff | github_pages_deployment_test.py:199-212 | there is no server-side code exactly when no walked `.php`, `.py`, `.rb` or `.js` path outside `_site`, `node_modules` and `.git` is readable with one of the four keywords in its first 1000 characters |
| Deployment.RepoSize | github_pages_deployment_test.py:214-220 | the size estimate completes exactly when every walked file has a readable size |
| Deployment.LimitationsOf | github_pages_deployment_test.py:222-227 | the limitations status is PASS exactly when there are no custom plugins, no server-side code and the repository is not too large |
| Deployment.PagesPassesIff | github_pages_deployment_test.py:235-237 | the requirements pass exactly when there is a README, the configuration is a mapping with `url` that keeps safe mode, and there is no custom plugin, no server-side code and no repository over 1 GiB |
| Deployment.LinksSnoc | github_pages_deployment_test.py:253-268 | scanning one more file appends its links |
| Deployment.ScriptsSnoc | github_pages_deployment_test.py:253-276 | scanning one more file appends its external scripts |
| Deployment.ExternalScriptsAreRemote | github_pages_deployment_test.py:253-276 | every recorded external script comes from a scanned page among the files, and its source starts with `http` and holds no quote |
| Deployment.HttpLinkRecordsEmptyIff | github_pages_deployment_test.py:253-268 | no link is recorded exactly when no scanned file has `http://` followed by a character that can continue a URL |
| Deployment.Context | github_pages_deployment_test.py:314 | the context is at most 53 characters, starts the match, and is the whole match when that has at most 50 |
| Deployment.ContextOfMatch | github_pages_deployment_test.py:314 | the context of a secret match is the match itself exactly when it has at most 50 characters |
| Deployment.FileFindingsEmptyIff | github_pages_deployment_test.py:308-315 | a file gives no finding exactly when none of the four patterns matches anywhere in it |
| Deployment.SensitiveFindingsEmptyIff | github_pages_deployment_test.py:289-324 | there is no finding exactly when no scanned file assigns a quoted value to a password, API key, secret or token |
| Deployment.GitignoreCheck | github_pages_deployment_test.py:326-355 | the record notes whether `.gitignore` exists; each flag is set exactly when the file is readable and contains one of its patterns: `.env` for environment files, `config.yml` or `*.config` for config files, `*.log` or `logs/` for log files |
| Deployment.PageLinksEmptyIff | github_pages_deployment_test.py:252-287 | no HTTP link is recorded exactly when no scanned page of the walk holds one |
| Deployment.SecurityPassesIff | github_pages_deployment_test.py:363-365 | security passes exactly when no page links over plain HTTP, no scanned file holds a secret, and `.gitignore` exists |
| Deployment.NoLiquidSyntaxErrors | github_pages_deployment_test.py:410-429 | every tag `{%.*?%}` finds still ends in `%}` once stripped, so the Liquid check never reports anything |
| Deployment.YamlErrorsNeedDelimiters | github_pages_deployment_test.py:431-453 | a YAML error names a walked page that starts with `---` and has a closing `---` at index 3 or later |
| Deployment.BuildSimulationOf | github_pages_deployment_test.py:455-461 | the simulation status is PASS exactly when both issue lists are empty, otherwise WARN, and the total is the sum of their lengths |
| Deployment.ReadinessIsRequirements | github_pages_deployment_test.py:486-487 | readiness passes exactly when the configuration loads without an error and `_pages/about.md` exists |
| Deployment.BuildSimulationPassIff | github_pages_deployment_test.py:403-461 | the simulation warns exactly when the front matter of some walked `.md` page does not parse |
| Deployment.JekyllFactors | github_pages_deployment_test.py:499-508 | at most three Jekyll factors hold, and none for a test that has not run |
| Deployment.PagesFactors | github_pages_deployment_test.py:510-518 | at most three GitHub Pages factors hold |
| Deployment.SecurityFactors | github_pages_deployment_test.py:520-528 | at most three security factors hold |
| Deployment.ReadinessFactors | github_pages_deployment_test.py:530-537 | at most two deployment factors hold |
| Deployment.ReadyFromScore | github_pages_deployment_test.py:539-548 | the integer criterion `2(j+g+s) + 3d >= 20` is exactly the score threshold: the mean of `j/3`, `g/3`, `s/3` and `d/2` above 0.8 |
| Deployment.JekyllVerdictIsFullScore | github_pages_deployment_test.py:126-128 | the Jekyll verdict holds exactly when all three of its factors do |
| Deployment.PagesVerdictIsFullScore | github_pages_deployment_test.py:235-237 | the GitHub Pages verdict holds exactly when all three of its factors do |
| Deployment.SecurityVerdictIsFullScore | github_pages_deployment_test.py:363-365 | the security verdict holds exactly when all three of its factors do |
| Deployment.ReadinessScore | github_pages_deployment_test.py:530-537 | the deployment section scores 2 when readiness passes and 1 otherwise |
| Deployment.ReadyCriterion | github_pages_deployment_test.py:539-567 | the site is ready exactly when, with readiness passing, at least seven of the other nine factors hold, or, with it failing, all nine hold; four passing tests make it ready |
| Deployment.GlobbedSnoc | github_pages_deployment_test.py:95-97 | globbing one more pattern appends its matches |
| Deployment.CheckDirStructure | github_pages_deployment_test.py:81-87 | the loop builds the directory map |
| Deployment.CollectProblematicFiles | github_pages_deployment_test.py:92-97 | the loop collects the `.php`, `.asp` and `.jsp` matches, pattern by pattern |
| Deployment.CollectLargeFiles | github_pages_deployment_test.py:99-111 | the loop collects the files over 100 MiB, skipping those whose size cannot be read |
| Deployment.CollectPluginNames | github_pages_deployment_test.py:193-197 | the loop collects the custom plugin names |
| Deployment.CollectServerSideMatches | github_pages_deployment_test.py:201-212 | the loop keeps the matches of one pattern that are server-side code |
| Deployment.CollectServerSideCode | github_pages_deployment_test.py:199-212 | the loops collect the server-side code of all four patterns |
| Deployment.EstimateRepoSize | github_pages_deployment_test.py:214-220 | the loop computes the size estimate, abandoned at the first size that cannot be read |
| Deployment.RepoSizeNoneStays | github_pages_deployment_test.py:215-220 | once an estimate has been abandoned it stays abandoned |
| Deployment.CollectFileLinks | github_pages_deployment_test.py:264-268 | the loop records one link per match, in order |
| Deployment.CollectFileScripts | github_pages_deployment_test.py:270-276 | the loop records one entry per script source starting with `http`, in order |
| Deployment.CollectPageRefs | github_pages_deployment_test.py:254-280 | the loop records the links and the external scripts of one pattern's pages, file by file |
| Deployment.CollectExternalRefs | github_pages_deployment_test.py:252-280 | the loops record the links and the external scripts of the `.html` and then the `.md` pages |
| Deployment.CollectPatternFindings | github_pages_deployment_test.py:310-315 | the loop records one finding per match |
| Deployment.FindingsForSecret | github_pages_deployment_test.py:309-315 | the findings of one pattern in one file |
| Deployment.FileFindingsStep | github_pages_deployment_test.py:308-315 | one more pattern appends its findings |
| Deployment.CollectFileFindings | github_pages_deployment_test.py:308-315 | the loop records the findings of the four patterns in one file, pattern by pattern |
| Deployment.CollectSensitiveFindings | github_pages_deployment_test.py:299-318 | the loop records the findings of every scanned file of the walk |
| Deployment.CollectMalformedTags | github_pages_deployment_test.py:421-426 | the loop records one issue per malformed tag |
| Deployment.CollectLiquidErrors | github_pages_deployment_test.py:411-429 | the loop records the Liquid issues of every scanned `.html` file |
| Deployment.CollectYamlErrors | github_pages_deployment_test.py:432-453 | the loop records one issue per scanned `.md` page whose closed front matter does not parse |
| Deployment.GitHubPagesDeploymentTest.constructor | github_pages_deployment_test.py:16-25 | no test has stored a record and there is no summary |
| Deployment.GitHubPagesDeploymentTest.TestJekyllBuildCompatibility | github_pages_deployment_test.py:27-128 | stores the Jekyll record, leaves the others, and returns the Jekyll verdict |
| Deployment.GitHubPagesDeploymentTest.TestGitHubPagesRequirements | github_pages_deployment_test.py:130-237 | stores the GitHub Pages record, leaves the others, and returns its verdict |
| Deployment.GitHubPagesDeploymentTest.TestSecurityCompliance | github_pages_deployment_test.py:239-365 | stores the security record, leaves the others, and returns its verdict |
| Deployment.GitHubPagesDeploymentTest.TestDeploymentReadiness | github_pages_deployment_test.py:367-487 | stores the readiness record, leaves the others, and returns its verdict |
| Deployment.GitHubPagesDeploymentTest.GenerateDeploymentReport | github_pages_deployment_test.py:489-567 | stores the summary of the four stored records and returns its readiness decision |
| Deployment.RunDeploymentTests | github_pages_deployment_test.py:569-593 | the exit status is 0 exactly when the site is ready after the four tests |
| Resources.MissingConfig | validate_resources.py:16-17 | a missing `_config.yml` gives exactly one issue, an ERROR |
| Resources.MissingConfigIsError | validate_resources.py:17 | the missing-configuration message is labelled ERROR |
| Resources.AvatarSpec | validate_resources.py:22-28 | the avatar check raises exactly on a null `author`, a string `author` containing `avatar`, and a null `avatar`; otherwise it gives at most one issue, absent exactly when no avatar is named or the named file exists, and that issue is an ERROR |
| Resources.ValidateConfigResources | validate_resources.py:12-30 | the method computes the configuration check; it raises when the configuration cannot be read, the loader raises any error, or the document is empty, and when the avatar check raises |
| Resources.CssRefsAreStylesheets | validate_resources.py:43 | every stylesheet reference found ends in `.css` |
| Resources.CssRefIssueSpec | validate_resources.py:44-55 | one ERROR for a missing reference and nothing for the others |
| Resources.MainCssJudgedBySource | validate_resources.py:46-51 | `assets/css/main.css` is judged by its Sass source alone |
| Resources.CssIssuesSpec | validate_resources.py:44-55 | the stylesheet issues are exactly one ERROR per missing reference |
| Resources.ValidateCssResources | validate_resources.py:32-57 | the method computes the stylesheet check: nothing without `_includes/head.html`, an exception when it cannot be read |
| Resources.JsRefsAreScripts | validate_resources.py:70 | every script reference found ends in `.js` |
| Resources.JsIssuesSpec | validate_resources.py:71-75 | the script issues are exactly one ERROR per missing reference |
| Resources.ValidateJsResources | validate_resources.py:59-77 | the method computes the script check: nothing without `_includes/scripts.html` |
| Resources.ExternalImagesSkipped | validate_resources.py:95-97 | a reference starting with `http` is never reported |
| Resources.PageImageIssuesSpec | validate_resources.py:91-102 | a page's image issues are exactly one ERROR per missing local reference, markdown targets first and `<img>` sources after |
| Resources.PagesImageIssuesAreErrors | validate_resources.py:86-102 | every issue of the image check is an ERROR |
| Resources.PagesImageIssuesRaise | validate_resources.py:86-88 | the image check raises exactly when some `.md` entry of `_pages` cannot be read |
| Resources.CheckImageRefs | validate_resources.py:94-102 | the inner loop gives the issues of one page's references |
| Resources.CheckPages | validate_resources.py:86-102 | the outer loop gives the issues of the pages in listing order, or raises |
| Resources.ValidateImageReferences | validate_resources.py:79-104 | the method computes the image check: nothing without `_pages` |
| Resources.FontIssuesWarnOnly | validate_resources.py:106-117 | the font check only ever warns |
| Resources.ValidateFontResources | validate_resources.py:106-117 | the method gives a WARNING exactly when `_sass/vendor/font-awesome` is missing |
| Resources.ErrorCountSkipsFonts | validate_resources.py:124-166 | the returned count is every issue but the font warning |
| Resources.ConfigIssuesAreErrors | validate_resources.py:12-30 | every configuration issue is an ERROR |
| Resources.ErrorsOfFive | validate_resources.py:124-144 | error-only lists followed by a warning-only list have as many errors as issues outside the last list |
| Resources.ValidateResources | validate_resources.py:119-166 | `main` returns the number of ERROR issues of the five checks in order, or raises when a check raises |
| Resources.RunValidateResources | validate_resources.py:168-170 | the exit status is 1 after an exception and otherwise the ERROR count modulo 256, so 0 exactly when no check raises and that count is a multiple of 256 |
| Captures.CapturesFromAll | validate_resources.py:91-92 | what holds of the group of every match holds of every group `re.findall` returns |
| Captures.CapturesFromEmpty | validate_resources.py:91-92 | `re.findall` returns no group exactly when the pattern matches nowhere |
| Captures.SearchSome | performance_seo_test.py:215-222 | `re.search` finds a group exactly when the pattern matches somewhere |
| Captures.CapturesFromFirst | performance_seo_test.py:206-214 | the first group returned from a position is the group of some match at or after it |
| Captures.SearchFirst | performance_seo_test.py:206-214 | the group `re.search` returns is the group of a match of the pattern |
| Captures.QuotedRefAt | validate_resources.py:43 | a match of `href="([^"]*\.css)"` captures, after the prefix, a quote-free span ending in the extension, inside the match |
| Captures.QuotedRefsShape | validate_resources.py:43 | every reference found ends with the extension and holds no quote |
| Captures.MarkdownImageAt | validate_resources.py:91 | a match of `!\[.*?\]\(([^)]+)\)` captures a non-empty span without `)`, strictly inside the match |
| Captures.MarkdownImagesShape | validate_resources.py:91 | a markdown image target is never empty and never holds `)` |
| Captures.ImgSrcAt | validate_resources.py:92 | a match of `<img[^>]+src="([^"]+)"` captures a non-empty quote-free span strictly inside the match |
| Captures.ImgSourcesShape | validate_resources.py:92 | an image source is never empty and never holds a quote |
| Captures.ScriptSrcAt | github_pages_deployment_test.py:271 | a match of `<script[^>]*src=["\']([^"\']+)["\']` captures a non-empty span without quotes strictly inside the match |
| Captures.ScriptSourcesShape | github_pages_deployment_test.py:271 | a script source is never empty and never holds a quote |
| Captures.FieldAt | performance_seo_test.py:215-222 | a match of the front-matter field pattern starts where one of the keys occurs and captures a non-empty value without quotes or newlines |
| Captures.FieldValueShape | performance_seo_test.py:215-222 | a value is found only where some key occurs, and it is never empty |
| Patterns.FindAllFromEmpty | github_pages_deployment_test.py:263 | `re.findall` finds nothing exactly when the pattern matches at no position |
| Patterns.FindAllFromMatches | github_pages_deployment_test.py:263 | every match found is the match at some position |
| Patterns.FindAllSpec | github_pages_deployment_test.py:263 | `re.findall` finds nothing exactly when the pattern matches nowhere, and each match found is the match at some position |
| Patterns.HttpLinkEnd | github_pages_deployment_test.py:263 | a match of `http://[^\s'"<>]+` runs over the longest run of link characters after `http://`, at least one |
| Patterns.HttpLinksEmptyIff | github_pages_deployment_test.py:263 | the link list is empty exactly when no link starts anywhere |
| Patterns.HttpLinkAtIsLink | github_pages_deployment_test.py:263 | the match at a position is a whole link |
| Patterns.HttpLinksAreLinks | github_pages_deployment_test.py:263-268 | every entry of the link list is `http://` followed by link characters |
| Patterns.CloseOnLineIff | functional_test_suite.py:156-159 | `.*?\)` matches from a position exactly when a `)` follows before the next newline |
| Patterns.LinkTailIff | functional_test_suite.py:156-159 | `.*?\]\(.*?\)` matches from a position exactly when `](` and then `)` follow on the same line |
| Patterns.HasLinkIff | functional_test_suite.py:159 | `re.search(r'\[.*?\]\(.*?\)', content)` finds a match exactly when a `[` is followed on its line by `](` and then `)` |
| Patterns.ImageIsLink | functional_test_suite.py:156-159 | whenever the image pattern matches, the link pattern matches too |
| Patterns.KeywordEnd | github_pages_deployment_test.py:290-295 | a keyword match, ignoring case, is at least five characters long and inside the text |
| Patterns.AssignmentEnd | github_pages_deployment_test.py:290-295 | a match of `\s*[:=]\s*["'][^"']+["']` is at least four characters long and ends with a quote |
| Patterns.SecretEnd | github_pages_deployment_test.py:290-295 | a secret match is at least nine characters long and ends with a quote |
| Patterns.SecretMatchesEmptyIff | github_pages_deployment_test.py:308-311 | a pattern gives no finding exactly when it matches nowhere |
| Patterns.SecretEndIsMatch | github_pages_deployment_test.py:309-311 | the text a secret match covers is a secret match |
| Patterns.SecretMatchesShape | github_pages_deployment_test.py:309-315 | every secret match is at least nine characters long and ends with a quote |
| Patterns.TagClose | github_pages_deployment_test.py:420 | a match of `.*?%}` ends just past a `%}` |
| Patterns.LiquidTagEnd | github_pages_deployment_test.py:420 | a match of `{%.*?%}` opens with `{%` and closes with the first `%}` after it |
| Patterns.LiquidTagEndWellFormed | github_pages_deployment_test.py:420-422 | the tag a match covers ends in `%}` even after stripping |
| Patterns.LiquidTagsWellFormed | github_pages_deployment_test.py:420-426 | every tag found opens with `{%` and still ends in `%}` after stripping |
| Browser.ResponsiveEntries | browser_compatibility_test.py:41-50 | a stylesheet contributes at most three responsive entries, and none exactly when it holds no media query, flexible unit or modern layout property |
| Browser.ResponsiveFeaturesBound | browser_compatibility_test.py:34-53 | the responsive feature list holds at most three entries per stylesheet |
| Browser.ResponsiveFeaturesEmptyIff | browser_compatibility_test.py:34-59 | the feature list is empty exactly when no stylesheet is readable and responsive, which is when the status is WARN |
| Browser.SearchViewport | browser_compatibility_test.py:65-73 | the search returns whether some readable file declares the viewport, and stops right after the first such file (the `break`); without one it opens every file |
| Browser.FindViewport | browser_compatibility_test.py:62-95 | the viewport is found as the specification predicate says, and the includes are not opened when a layout already declares it |
| Browser.CollectResponsiveFeatures | browser_compatibility_test.py:34-53 | the loop over the stylesheets builds exactly the specified feature list |
| Browser.AppendResponsiveEntries | browser_compatibility_test.py:41-50 | one stylesheet's checks append exactly its responsive entries |
| Browser.ResponsiveStep | browser_compatibility_test.py:35-53 | the feature list of one more stylesheet is the old list followed by that stylesheet's entries |
| Browser.CategoryFilesDistinct | browser_compatibility_test.py:123-145 | a category never lists a stylesheet twice when the listing has no duplicates |
| Browser.FeatureCountBound | browser_compatibility_test.py:172 | the feature count is at most the number of categories times the number of stylesheets |
| Browser.CssVerdict | browser_compatibility_test.py:165-183 | the vendor-prefix status is always INFO, the feature count is at most six per stylesheet, and the score status is PASS exactly when the test's verdict (more than five features) holds |
| Browser.CssPassUsesFeatures | browser_compatibility_test.py:165-183 | a PASS needs some stylesheet in some feature category, and a single stylesheet passes only by falling in all six |
| Browser.CollectCssFeatures | browser_compatibility_test.py:113-145 | the loop builds exactly the category-to-stylesheets map of the specification |
| Browser.CategorySnoc | browser_compatibility_test.py:128-145 | one more stylesheet extends each category's list by that stylesheet exactly when it matches the category |
| Browser.CollectVendorPrefixes | browser_compatibility_test.py:150-162 | the vendor list is exactly the readable stylesheets holding a vendor prefix, in listing order |
| Browser.CountFeatures | browser_compatibility_test.py:172 | the summed lengths of the category lists equal the specified feature count |
| Browser.AttributeEntries | browser_compatibility_test.py:210-215 | a file contributes at most three accessibility-attribute entries |
| Browser.AttributeEntriesEmptyIff | browser_compatibility_test.py:210-215 | a file contributes no attribute entry exactly when it holds none of `alt=`, `aria-`, `role=` |
| Browser.SemanticEntriesEmptyIff | browser_compatibility_test.py:204-207 | a file contributes no semantic entry exactly when it holds none of the semantic tags |
| Browser.DirAccessibility | browser_compatibility_test.py:196-243 | a directory adds nothing to either list exactly when none of its readable files holds a semantic tag or an accessibility attribute |
| Browser.AccessibilityIff | browser_compatibility_test.py:262 | the accessibility verdict holds exactly when some readable layout or include holds a semantic tag or an accessibility attribute |
| Browser.CollectTags | browser_compatibility_test.py:204-207 | the tag loop yields exactly the semantic entries of a file, in tag order |
| Browser.ScanAccessibility | browser_compatibility_test.py:197-243 | the scan of a directory yields exactly the specified semantic and attribute lists |
| Browser.AppendAttributeEntries | browser_compatibility_test.py:210-215 | one file's attribute checks append exactly its attribute entries |
| Browser.AccessibilityStep | browser_compatibility_test.py:198-218 | the two lists of one more file are the old lists followed by that file's entries |
| Browser.PerformanceIff | browser_compatibility_test.py:274-320 | the performance verdict holds exactly when the configuration is readable and mentions `style: compressed`, `compress_html:` or `sass:`; the images never matter |
| Browser.CollectOptimizedImages | browser_compatibility_test.py:298-301 | the optimized images are exactly the entries with a `.webp` or `.avif` suffix, in listing order |
| Browser.CollectPerformanceFeatures | browser_compatibility_test.py:274-292 | the configuration checks yield exactly the specified performance features |
| Browser.OptimizedStep | browser_compatibility_test.py:299-301 | one more entry extends the optimized list by that entry exactly when its suffix is modern |
| Browser.SummarySpec | browser_compatibility_test.py:327-341 | the overall status is PASS or PARTIAL, it is PASS exactly when responsive design, CSS and accessibility pass, and the performance result never changes it |
| Browser.SummaryAfterTests | browser_compatibility_test.py:327-333 | after the four tests, each summary flag is exactly that test's stored verdict: responsive design is the viewport alone, not the stylesheet features |
| Browser.BrowserCompatibilityTest.constructor | browser_compatibility_test.py:13-22 | a new tester holds no results and no summary |
| Browser.BrowserCompatibilityTest.TestResponsiveDesign | browser_compatibility_test.py:24-103 | stores the responsive results, touches no other result, and returns that some feature and the viewport were found |
| Browser.BrowserCompatibilityTest.TestCssCompatibility | browser_compatibility_test.py:105-183 | stores the CSS results, touches no other result, and returns that more than five features were found |
| Browser.BrowserCompatibilityTest.TestAccessibilityFeatures | browser_compatibility_test.py:185-262 | stores the accessibility results, touches no other result, and returns that a semantic tag or an attribute was found |
| Browser.BrowserCompatibilityTest.TestPerformanceOptimization | browser_compatibility_test.py:264-320 | stores the performance results, touches no other result, and returns that a performance setting was found |
| Browser.BrowserCompatibilityTest.GenerateCompatibilityReport | browser_compatibility_test.py:322-358 | stores the summary of the stored results and returns that its status is PASS or PARTIAL |
| Browser.RunBrowserTests | browser_compatibility_test.py:360-384 | the exit status is always 0, since the overall status is always PASS or PARTIAL |
| Performance.BackupSuffix | performance_seo_test.py:60 | a name ending in `.backup` has the suffix `.backup` or none at all |
| Performance.NoBackupImage | performance_seo_test.py:43-61 | no file counted as an image can also be named like a backup |
| Performance.UnoptimizedAlwaysEmpty | performance_seo_test.py:59-61 | the list of unoptimized images stays empty whatever the images directory holds |
| Performance.ImageCounts | performance_seo_test.py:41-69 | the modern-format count and the number of large images are bounded by the number of images, and the image check passes exactly when some regular file has a `.webp` or `.avif` suffix |
| Performance.ImageStep | performance_seo_test.py:42-61 | one more entry raises each counter by one and appends to each list exactly when the entry meets that counter's condition |
| Performance.CountImages | performance_seo_test.py:41-64 | the loop's four counters and lists are exactly those of the specification |
| Performance.CheckCssOptimization | performance_seo_test.py:73-95 | the three configuration flags are exactly those of the specification, all unset when the configuration is missing or unreadable |
| Performance.CssOptimizationIff | performance_seo_test.py:85-99 | the CSS check passes exactly when the readable configuration asks for compressed Sass, HTML compression, or Sass without source maps |
| Performance.LargeSassEmptyIff | performance_seo_test.py:106-119 | no performance issue is reported exactly when every stylesheet whose size can be read is at most 50 KB |
| Performance.LargeSassStep | performance_seo_test.py:108-114 | one more stylesheet appends an issue exactly when its size is above 50 KB |
| Performance.FindLargeSass | performance_seo_test.py:105-114 | the loop reports exactly the stylesheets above 50 KB, in listing order, with their sizes |
| Performance.PagePerformance | performance_seo_test.py:30-122 | the three checks produce exactly the specified performance record |
| Performance.PerformancePassIff | performance_seo_test.py:128 | the page performance verdict holds exactly when no stylesheet is above 50 KB and the configuration optimizes the assets; the images never decide it |
| Seo.MetadataCount | performance_seo_test.py:162-165 | the number of metadata fields recorded is one for each of title, description, url and author present at the top level |
| Seo.SeoConfigPassIff | performance_seo_test.py:145-174 | the SEO configuration passes exactly when a readable configuration mapping lists `jekyll-seo-tag` among its plugins and misses at most one of the four metadata fields |
| Seo.MetadataStep | performance_seo_test.py:163-165 | one more metadata field is recorded exactly when it is a key of the configuration |
| Seo.ReadSeoConfig | performance_seo_test.py:137-168 | the plugin flags and metadata fields are exactly those of the specification; a missing file, an error of the loader or a non-mapping document leaves the defaults |
| Seo.PageRecordSpec | performance_seo_test.py:233-248 | a page scores at most seven factors, and its status is PASS exactly when at least five hold, WARN otherwise |
| Seo.LengthsFromPatterns | performance_seo_test.py:204-214 | the measured title and description lengths are the lengths of what the patterns capture, and a positive length implies the matching field flag |
| Seo.ScorePage | performance_seo_test.py:193-231 | one iteration of the page loop keeps `front_matter_end` either unassigned or at least -1 |
| Seo.ExcerptImpliesDescription | performance_seo_test.py:210-217 | a page with an excerpt always counts as having a description |
| Seo.ScoreFromFrontMatter | performance_seo_test.py:198-217 | the title, description and excerpt fields and both lengths come from a closed front matter exactly as it reads, and are all unset without one |
| Seo.PassNeedsFrontMatter | performance_seo_test.py:233-247 | a page passes only when it is readable and has a closed front matter |
| Seo.StaleFrontMatterEnd | performance_seo_test.py:198-231 | a readable page without a leading `---` keeps the previous page's `front_matter_end`: with none yet assigned it scores nothing, otherwise its body is cut at that earlier index |
| Seo.Put | performance_seo_test.py:244 | storing a page in the dictionary keeps its keys distinct and in insertion order, and maps the key to the new record |
| Seo.PagesRun | performance_seo_test.py:180-248 | after the loop the dictionary has exactly the stems of the pages as keys, each holding a well-formed record |
| Seo.FactorSumAtMost | performance_seo_test.py:252 | pages with at most four factors each sum to at most four per page |
| Seo.AverageNeedsPassingPage | performance_seo_test.py:252-254 | an average score above 0.7 needs at least one passing page |
| Seo.ScorePages | performance_seo_test.py:180-248 | the loop builds exactly the specified dictionary of page records |
| Seo.StructuredData.Count | performance_seo_test.py:289 | at most four kinds of structured data are counted |
| Seo.ScanStep | performance_seo_test.py:267-285 | one more layout or include sets each structured-data flag exactly when the file is readable and holds its marker |
| Seo.ScanStructuredData | performance_seo_test.py:265-285 | each flag after a directory is set exactly when it was set before or some readable file holds its marker |
| Seo.SeoOptimization | performance_seo_test.py:134-293 | the three SEO checks produce exactly the specified SEO record |
| Seo.SeoVerdict | performance_seo_test.py:299-301 | the SEO verdict needs the SEO plugin in a readable configuration mapping, a passing page and a structured-data marker; with no pages the page check passes but the verdict fails |
| Mobile.ResponsiveFeatures.Points | performance_seo_test.py:360-366 | the responsive score's numerator is at most five |
| Mobile.MediaQueriesPositive | performance_seo_test.py:343-345 | the media-query total is positive exactly when some readable stylesheet contains `@media` |
| Mobile.ResponsivePassIff | performance_seo_test.py:367 | the responsive check passes exactly when some readable layout or include declares the viewport and some readable stylesheet holds a media query |
| Mobile.ScanTemplates | performance_seo_test.py:319-333 | the viewport and mobile-navigation flags after a directory are set exactly when they were set before or some readable file holds the marker |
| Mobile.SassStep | performance_seo_test.py:338-356 | one more stylesheet adds its media queries to the total and sets the flexible-image and touch flags exactly when it holds their markers |
| Mobile.ScanSass | performance_seo_test.py:336-356 | the media-query total and the two stylesheet flags are exactly those of the specification |
| Mobile.CompressedCoversOptimized | performance_seo_test.py:380-383 | the mobile count of modern images is at least the performance test's count, which also requires a regular file |
| Mobile.CountModernImages | performance_seo_test.py:379-383 | the count is exactly the number of entries with a `.webp` or `.avif` suffix, files or not |
| Mobile.ScanLazyLoading | performance_seo_test.py:386-397 | lazy loading is found exactly when it was found before or some readable file holds `loading="lazy"` |
| Mobile.MobileOptimization | performance_seo_test.py:307-404 | the two mobile checks produce exactly the specified mobile record |
| Mobile.MobileVerdict | performance_seo_test.py:367-411 | the mobile verdict needs the viewport or a media query and a passing optimization check, and it can hold while the responsive check warns |
| PerformanceSeo.SummarySpec | performance_seo_test.py:418-457 | the overall status is PASS or WARN; it is PASS exactly when both mobile checks and four of the other six pass, or one mobile check and five of the other six pass; so all three tests must have run |
| PerformanceSeo.PerformanceSeoTest.constructor | performance_seo_test.py:16-24 | a new tester holds no results and no summary |
| PerformanceSeo.PerformanceSeoTest.TestPagePerformance | performance_seo_test.py:26-128 | stores the performance record, touches nothing else, and returns that no stylesheet is too large and some CSS optimization is set |
| PerformanceSeo.PerformanceSeoTest.TestSeoOptimization | performance_seo_test.py:130-301 | stores the SEO record, touches nothing else, and returns the SEO verdict |
| PerformanceSeo.PerformanceSeoTest.TestMobilePerformance | performance_seo_test.py:303-411 | stores the mobile record, touches nothing else, and returns the mobile verdict |
| PerformanceSeo.PerformanceSeoTest.GeneratePerformanceReport | performance_seo_test.py:413-474 | stores the summary of the stored records and returns that its status is PASS |
| PerformanceSeo.RunPerformanceSeo | performance_seo_test.py:476-499 | the exit status is 0 or 1, and 0 exactly when the overall status of the three results is PASS |
| Optimizer.CollectCssFiles | performance_optimizer.py:18-26 | the stylesheets are exactly the `.scss` files below `_sass`, in walk order, followed by the main stylesheet when it exists |
| Optimizer.AnalyzeCssPerformance | performance_optimizer.py:13-62 | the listed stylesheets, their total size and the issues are exactly those of the specification |
| Optimizer.ScanStylesheet | performance_optimizer.py:35-48 | the checks on one readable stylesheet append exactly its issues |
| Optimizer.ScanPrefixes | performance_optimizer.py:45-48 | the prefix loop appends exactly the prefix issues of the stylesheet |
| Optimizer.PrefixIssuesSpec | performance_optimizer.py:45-48 | there is at most one prefix issue per listed prefix, all are outdated-prefix issues, and they name the file and exactly the listed prefixes it contains |
| Optimizer.ImportantIssueIff | performance_optimizer.py:39-42 | an `!important` issue is reported, with the count, exactly when the stylesheet holds more than five `!important` |
| Optimizer.OutdatedPrefixIff | performance_optimizer.py:44-48 | an outdated-prefix issue is reported exactly for each of the three old prefixes the stylesheet contains, so a stylesheet has at most four issues |
| Optimizer.TotalSizeIsEncoding | performance_optimizer.py:28-36 | the total size is the length of the UTF-8 encoding of all readable stylesheets together |
| Optimizer.ListHtmlFiles | performance_optimizer.py:72-82 | the templates of a directory are its `.html` entries joined to it, none when it does not exist, and `listdir` raises when it is not a directory |
| Optimizer.StyleAttrEnd | performance_optimizer.py:96 | an inline-style match at a position ends at least eight characters later, within the text, or there is none |
| Optimizer.ImgTagEnd | performance_optimizer.py:101 | an image-tag match at a position ends at least five characters later, within the text, or there is none |
| Optimizer.StyleAttrAtIsAttr | performance_optimizer.py:96 | a match of the inline-style pattern is `style="`, a value without quotes, then `"` |
| Optimizer.ImgTagAtIsTag | performance_optimizer.py:101 | a match of the image-tag pattern is `<img`, anything but `>`, then `>` |
| Optimizer.StyleAttrsShape | performance_optimizer.py:96 | every inline style found is a whole closed attribute |
| Optimizer.ImgTagsShape | performance_optimizer.py:101 | every image tag found is a whole tag |
| Optimizer.AnalyzeHtmlStructure | performance_optimizer.py:64-117 | the templates and the issues are exactly those of the specification, and the analysis raises when a template directory cannot be listed |
| Optimizer.ScanFile | performance_optimizer.py:86-108 | one template appends exactly the issues of its contents, and nothing when it cannot be read |
| Optimizer.ScanTemplate | performance_optimizer.py:92-105 | the checks on one readable template, with the image loop and its `break`, append exactly its issues |
| Optimizer.InlineStylesIff | performance_optimizer.py:96-98 | an inline-style issue is reported, with the count, exactly when the template has more than three inline styles |
| Optimizer.MissingAltOnce | performance_optimizer.py:100-105 | a template yields at most one missing-alt issue, and one exactly when some image tag lacks `alt=` |
| Optimizer.ImageStep | performance_optimizer.py:135-149 | one more walked file extends the image, large and unoptimized lists exactly when it is supported and meets their conditions |
| Optimizer.CheckImageOptimization | performance_optimizer.py:119-165 | the check is exactly the specified one: no images directory, a raise when a supported image has no size, or the image, large and unoptimized lists |
| Optimizer.UnsizedFound | performance_optimizer.py:138 | a supported image without a size makes the size lookup fail |
| Optimizer.LargeImagesSpec | performance_optimizer.py:142-159 | an image is listed as large exactly when it has more than 500000 bytes; at most the first five are shown, and the shown ones plus the "more" count make up the whole list |
| Optimizer.UnoptimizedIff | performance_optimizer.py:146-149 | a path is listed as unoptimized exactly when it is a supported PNG or JPEG image whose WebP sibling does not exist |
| Optimizer.WellOptimizedIff | performance_optimizer.py:164-165 | the images are well optimized exactly when every supported image has at most 500000 bytes and every PNG or JPEG has its WebP sibling |
| Optimizer.RasterEnding | performance_optimizer.py:146 | a name whose lower-cased form ends in `.png`, `.jpg` or `.jpeg` has that extension's dot at the same place, with no dot or separator after it |
| Optimizer.WebpSiblingOf | performance_optimizer.py:147 | the WebP sibling replaces the PNG or JPEG extension, except that a name that is only dots before it gets `.webp` appended to the whole path |
| Optimizer.SiblingAtDot | performance_optimizer.py:147 | `splitext` cuts a name at its last dot unless only dots come before it |
| Optimizer.RunOptimizer | performance_optimizer.py:257-282 | the run is the specified sequence of analyses; the exit status is 0 exactly when every analysis returned, 1 otherwise |
| Optimizer.RunCompletesIff | performance_optimizer.py:73-138 | the run completes exactly when each existing template directory is a directory and every supported image has a size |
| Paths.ComponentsAreComponents | functional_test_suite.py:61 | every part `pathlib` parses out of a relative path is non-empty, not `.`, and holds no separator |
| Paths.ComponentsSplit | functional_test_suite.py:61 | the parts of `a/b` are those of `a` followed by those of `b` |
| Paths.CollapsedPieces | github_pages_compatibility_check.py:112-113 | a doubled separator or a `.` component does not change the parts of a path |
| Paths.ComponentsJoined | functional_test_suite.py:61 | parsing parts joined by single separators gives the parts back |
| Paths.UnderClean | github_pages_compatibility_check.py:112-113 | a relative path already in normal form is joined under its directory unchanged, as plain concatenation with `/` |
| Paths.UnderKeepsEnding | functional_test_suite.py:61 | joining a path that ends with a file extension gives a child of the directory that ends with that extension |
| Text.Find | performance_seo_test.py:199 | `find` returns the lowest index at or after the start where the pattern occurs, and -1 exactly when there is none |
| Text.JoinSplit | verify_navigation.py:20 | joining the parts of a bounded `split` with the separator gives the text back |
| Text.StripCharsSpec | github_pages_compatibility_check.py:112 | the stripped string is no longer than the original and neither begins nor ends with a stripped character |
| Text.Lower | performance_seo_test.py:329 | `lower` keeps the length and lower-cases each ASCII letter in place |
| Text.Utf8Length | performance_optimizer.py:35 | the UTF-8 length of a text is between one and four bytes per character |
| Text.Utf8LengthAppend | performance_optimizer.py:35-36 | the UTF-8 length of two texts together is the sum of their lengths |
| Text.Sort | verify_navigation.py:113 | `sorted` yields an ordered permutation of its input |
| Yaml.Config.Plugins | performance_seo_test.py:150 | `config.get('plugins', [])` is the empty list when the configuration has no `plugins` key |

## Left out

- `optimize_images.py` is not part of this model: it rewrites image files through an imaging library.
- YAML parsing is not modelled: `yaml.safe_load` is the input `Yaml.Loader`, which yields a parse error, another loader error (one shape for every exception that is no `YAMLError`), an empty document, a navigation mapping whose `main` is null, a scalar or a non-empty mapping, or a mapping whose other entries of interest are absent, null or strings. A `main` that is an empty string or empty mapping is given as an empty list, which every script treats alike.
- Documents the loader cannot express are not modelled: a top-level list or scalar (where `validate_resources.py` would find no `author` and return no issue), numbers, booleans, lists or nested mappings where the scripts expect a string (a numeric `url`, `title` or `permalink`), a `plugins` entry that is null or not a list of strings, navigation `main` list entries that are not mappings, and an `author` that is a list or a number.
- Seo.AverageAbove: compares `10 * sum > 49 * count` exactly, while the source adds the float scores `factors / 7` and divides; at the exact tie (ten times the factor sum equal to 49 times the page count) the float result can differ from 0.7 by rounding, and for such tables the model always answers "not above".
- The order of directory listings and walks is not modelled: `Listing` and `Walk` are inputs, so the model holds for every order they yield.
- Floating-point scores, ratios, `round(...)` and the `//1024` kilobyte figures are not computed; sizes stay in bytes, and each threshold on a score is an exact integer comparison equal to the source's test in exact arithmetic (see Seo.AverageAbove for the one place where float rounding can matter).
- The deployment summary's four real-valued scores are kept as counts of passing factors; only the readiness decision built from them is modelled.
- The stored metadata values (`site_metadata[field] = config[field]`, `size_mb`, `repo_size_mb`) are not kept; the model records which fields are present and the sizes in bytes.
- Printing, emoji messages, timestamps and the JSON report files are left out; a report whose file cannot be written is taken to succeed.
- `generate_performance_report` and `create_htaccess_for_caching` of the performance optimizer are left out, because they only write fixed content to files.
- `test_resource_links` of the functional test suite is left out: `main` runs it before the report, but it catches its own errors and the report never reads the table it stores, so it cannot change the exit status.
- Text.Lower: lower-cases ASCII letters only. Python's `lower` also maps a few non-ASCII letters onto ASCII (the Kelvin sign to `k`, the dotted capital I to `i` followed by a combining dot). None of the lower-case markers the scripts look for (`mobile`, `hamburger`, the image suffixes) can arise that way.
- `f.read(1000)` is modelled as the first 1000 characters of the file's text; decoding errors are an unreadable file.
- Absolute paths and `base_path` arguments other than the working directory are not modelled. Of `pathlib`'s normalisation only the dropping of empty and `.` components is modelled; a `..` component is kept as text, and the file system is keyed by the resulting paths. A file that cannot be opened, for want of permission or otherwise, is one outside both `text` and `binary`.
- `insecure_resources` of the deployment test's security record is always an empty list and is not stored.
- Browser.RunBrowserTests: its contract states only the exit status, which is always 0; the stored results are stated by the class methods it calls.
