/** The navigation verifier (verify_navigation.py): every entry of
    `_data/navigation.yml` must name a page whose front matter carries that
    URL as its permalink. */
module Navigation {
  import opened Text
  import opened Site
  import opened Yaml
  import opened Paths
  import FrontMatter

  const NavigationFile := "_data/navigation.yml"
  const PagesDir := "_pages"
  const HomePage := "_pages/about.md"
  const MarkdownSuffix := ".md"

  /** What `yaml.safe_load(front_matter).get('permalink', None)` yields, with
      a YAML error and a document that is no mapping (whose missing `.get`
      raises inside the same `try`) both giving None. */
  function ParsePermalink(yaml: Loader, frontMatter: string): Option<string> {
    match yaml.frontMatter(frontMatter)
    case Malformed => None
    case Parsed(p) => p
  }

  /** `extract_permalink_from_file`: never raises; None unless the file can be
      read, starts with `---`, and its split-based front matter parses to a
      permalink. */
  function ExtractPermalink(fs: FileSystem, yaml: Loader, path: string): (r: Option<string>)
    ensures r.Some? ==> path in fs.text && StartsWith(fs.text[path], FrontMatter.Delimiter)
    ensures r.Some? ==> ParsePermalink(yaml, FrontMatter.BySplit(fs.text[path]).value) == r
  {
    if path !in fs.text then None
    else
      match FrontMatter.BySplit(fs.text[path])
      case None => None
      case Some(fm) => ParsePermalink(yaml, fm)
  }

  /** With a closing delimiter, the permalink comes from the same front matter
      that the find-based extractor of the other scripts cuts out. */
  lemma ExtractClosed(fs: FileSystem, yaml: Loader, path: string)
    requires path in fs.text && StartsWith(fs.text[path], FrontMatter.Delimiter)
    requires FrontMatter.ClosingIndex(fs.text[path]) != -1
    ensures ExtractPermalink(fs, yaml, path) ==
            ParsePermalink(yaml, FrontMatter.ByFind(fs.text[path]).value)
  {
    FrontMatter.ExtractorsAgree(fs.text[path]);
  }

  /** Without a closing delimiter the whole rest of the file is parsed as the
      front matter: the extractor does not give up with None. */
  lemma ExtractUnclosed(fs: FileSystem, yaml: Loader, path: string)
    requires path in fs.text && StartsWith(fs.text[path], FrontMatter.Delimiter)
    requires FrontMatter.ClosingIndex(fs.text[path]) == -1
    ensures ExtractPermalink(fs, yaml, path) == ParsePermalink(yaml, fs.text[path][3..])
  {
    FrontMatter.UnclosedFrontMatter(fs.text[path]);
  }

  /** Listing entry `name` of `_pages` is a page whose permalink equals
      `url`. A null `url` is None, and so is the permalink of every page that
      has none or cannot be read: such a page matches it. */
  predicate IsMatch(fs: FileSystem, yaml: Loader, name: string, url: Option<string>) {
    EndsWith(name, MarkdownSuffix) && ExtractPermalink(fs, yaml, Child(PagesDir, name)) == url
  }

  /** `os.listdir('_pages')` raises: `_pages` exists but is no directory. */
  predicate PagesUnlistable(fs: FileSystem) {
    fs.Exists(PagesDir) && PagesDir !in fs.dirs
  }

  /** Whether the verifier reports an entry with this URL as VALID, given the
      `os.listdir('_pages')` listing: `/` is judged by `_pages/about.md` alone,
      any other URL by the existence of a matching page. */
  predicate EntryValid(fs: FileSystem, yaml: Loader, listing: seq<string>, url: Option<string>) {
    if url == Some("/") then
      fs.Exists(HomePage) && ExtractPermalink(fs, yaml, HomePage) == Some("/")
    else
      fs.Exists(PagesDir) && exists i :: 0 <= i < |listing| && IsMatch(fs, yaml, listing[i], url)
  }

  /** A null URL is VALID as soon as some `.md` entry of `_pages` has no
      permalink. */
  lemma NullUrlMatchesPageWithoutPermalink(fs: FileSystem, yaml: Loader, listing: seq<string>, i: nat)
    requires fs.Exists(PagesDir) && i < |listing| && EndsWith(listing[i], MarkdownSuffix)
    requires ExtractPermalink(fs, yaml, Child(PagesDir, listing[i])).None?
    ensures EntryValid(fs, yaml, listing, None)
  {
    assert IsMatch(fs, yaml, listing[i], None);
  }

  /** The home entry does not look at the listing or at any page but
      `_pages/about.md`. */
  lemma HomeConsultsOnlyAbout(fs1: FileSystem, fs2: FileSystem, yaml: Loader,
                              listing1: seq<string>, listing2: seq<string>)
    requires fs1.Exists(HomePage) == fs2.Exists(HomePage)
    requires fs1.Read(HomePage) == fs2.Read(HomePage)
    ensures EntryValid(fs1, yaml, listing1, Some("/")) == EntryValid(fs2, yaml, listing2, Some("/"))
  {
    assert (HomePage in fs1.text) == (HomePage in fs2.text);
  }

  /** Listing entries that do not end in `.md` are never candidates. */
  lemma NonMarkdownIgnored(fs: FileSystem, yaml: Loader, a: seq<string>, name: string,
                           b: seq<string>, url: Option<string>)
    requires !EndsWith(name, MarkdownSuffix)
    ensures EntryValid(fs, yaml, a + [name] + b, url) == EntryValid(fs, yaml, a + b, url)
  {
    var l1 := a + [name] + b;
    var l2 := a + b;
    if url != Some("/") {
      if i :| 0 <= i < |l1| && IsMatch(fs, yaml, l1[i], url) {
        if i < |a| {
          assert l2[i] == l1[i];
        } else {
          assert i > |a|;
          assert l2[i - 1] == l1[i];
        }
      }
      if i :| 0 <= i < |l2| && IsMatch(fs, yaml, l2[i], url) {
        if i < |a| {
          assert l1[i] == l2[i];
        } else {
          assert l1[i + 1] == l2[i];
        }
      }
    }
  }

  /** The inner search of `verify_navigation`: the first listing entry, in
      listing order, that is a page with permalink `url`; the loop stops
      there, so later pages are not read. */
  method FindPage(fs: FileSystem, yaml: Loader, listing: seq<string>, url: Option<string>)
    returns (found: Option<nat>)
    ensures found.Some? ==> found.value < |listing| && IsMatch(fs, yaml, listing[found.value], url)
    ensures found.Some? ==> forall k :: 0 <= k < found.value ==> !IsMatch(fs, yaml, listing[k], url)
    ensures found.None? ==> forall k :: 0 <= k < |listing| ==> !IsMatch(fs, yaml, listing[k], url)
  {
    found := None;
    for i := 0 to |listing|
      invariant forall k :: 0 <= k < i ==> !IsMatch(fs, yaml, listing[k], url)
    {
      var filename := listing[i];
      if EndsWith(filename, MarkdownSuffix) {
        var permalink := ExtractPermalink(fs, yaml, Child(PagesDir, filename));
        if permalink == url {
          found := Some(i);
          break;
        }
      }
    }
  }

  /** The navigation entries the verifier iterates over, or None when loading
      the navigation file raises (unreadable, any loader error, or an empty
      document whose `.get` fails). */
  function NavigationEntries(fs: FileSystem, yaml: Loader): Option<seq<NavItem>>
    requires fs.Exists(NavigationFile)
  {
    if NavigationFile !in fs.text then None
    else
      var doc := yaml.navigation(fs.text[NavigationFile]);
      if doc.NavMapping? then Some(doc.Main()) else None
  }

  /** Every entry is VALID. */
  predicate AllValid(fs: FileSystem, yaml: Loader, listing: seq<string>, items: seq<NavItem>) {
    forall i :: 0 <= i < |items| ==> EntryValid(fs, yaml, listing, items[i].Url())
  }

  /** The position of the first entry whose URL is not `/`, the first one
      that lists `_pages`; `|items|` when there is none. */
  function FirstListed(items: seq<NavItem>): (n: nat)
    ensures n <= |items|
    ensures forall k :: 0 <= k < n ==> items[k].Url() == Some("/")
    ensures n < |items| ==> items[n].Url() != Some("/")
  {
    if items == [] then 0
    else if items[0].Url() == Some("/") then 1 + FirstListed(items[1..])
    else 0
  }

  /** The entries judged before `verify_navigation` returns or raises: all
      of them, unless `_pages` cannot be listed and some entry needs it. */
  function Judged(fs: FileSystem, items: seq<NavItem>): (n: nat)
    ensures n <= |items|
  {
    if PagesUnlistable(fs) then FirstListed(items) else |items|
  }

  /** `verify_navigation`: False at once when the navigation file is missing;
      otherwise every entry is judged, whatever the earlier verdicts, and the
      result is their conjunction, unless an entry other than `/` needs the
      listing of a `_pages` that is no directory, which raises there.
      `verdicts` are the VALID/INVALID lines it prints, one per entry judged. */
  method VerifyNavigation(fs: FileSystem, yaml: Loader, listing: seq<string>)
    returns (r: Outcome<bool>, verdicts: seq<bool>)
    ensures !fs.Exists(NavigationFile) ==> r == Returned(false) && verdicts == []
    ensures fs.Exists(NavigationFile) && NavigationEntries(fs, yaml).None? ==> r == Raised
    ensures fs.Exists(NavigationFile) && NavigationEntries(fs, yaml).Some? ==>
              var items := NavigationEntries(fs, yaml).value;
              && |verdicts| == Judged(fs, items)
              && (forall i :: 0 <= i < |verdicts| ==>
                    verdicts[i] == EntryValid(fs, yaml, listing, items[i].Url()))
              && r == if Judged(fs, items) < |items| then Raised
                      else Returned(AllValid(fs, yaml, listing, items))
  {
    verdicts := [];
    if !fs.Exists(NavigationFile) {
      return Returned(false), verdicts;
    }
    var entries := NavigationEntries(fs, yaml);
    if entries.None? {
      return Raised, verdicts;
    }
    var mainNav := entries.value;
    var allValid := true;
    for i := 0 to |mainNav|
      invariant |verdicts| == i <= Judged(fs, mainNav)
      invariant forall k :: 0 <= k < i ==> verdicts[k] == EntryValid(fs, yaml, listing, mainNav[k].Url())
      invariant allValid <==> forall k :: 0 <= k < i ==> verdicts[k]
    {
      var url := mainNav[i].Url();
      var valid: bool;
      if url == Some("/") {
        if fs.Exists(HomePage) {
          var permalink := ExtractPermalink(fs, yaml, HomePage);
          valid := permalink == Some("/");
        } else {
          valid := false;
        }
      } else {
        var found: Option<nat> := None;
        if fs.Exists(PagesDir) {
          if PagesDir !in fs.dirs {
            return Raised, verdicts;
          }
          found := FindPage(fs, yaml, listing, url);
        }
        valid := found.Some?;
      }
      if !valid {
        allValid := false;
      }
      verdicts := verdicts + [valid];
    }
    r := Returned(allValid);
  }

  /** One row printed by `list_all_pages`. */
  datatype PageRow = PageRow(name: string, permalink: Option<string>)

  function Names(rows: seq<PageRow>): (names: seq<string>)
    ensures |names| == |rows|
    ensures forall i :: 0 <= i < |rows| ==> names[i] == rows[i].name
  {
    if rows == [] then [] else [rows[0].name] + Names(rows[1..])
  }

  /** The listing entries ending in `.md`, in their order. */
  function MarkdownOnly(s: seq<string>): (r: seq<string>)
    ensures |r| <= |s|
  {
    if s == [] then []
    else (if EndsWith(s[0], MarkdownSuffix) then [s[0]] else []) + MarkdownOnly(s[1..])
  }

  /** The `.md` entries are kept with all their copies and nothing else is kept. */
  lemma {:induction false} MarkdownOnlyMultiset(s: seq<string>)
    ensures forall x {:trigger multiset(MarkdownOnly(s))[x]} ::
              multiset(MarkdownOnly(s))[x] == if EndsWith(x, MarkdownSuffix) then multiset(s)[x] else 0
  {
    if s != [] {
      MarkdownOnlyMultiset(s[1..]);
      assert s == [s[0]] + s[1..];
    }
  }

  lemma {:induction false} MarkdownOnlyMembers(s: seq<string>)
    ensures forall j :: 0 <= j < |MarkdownOnly(s)| ==> MarkdownOnly(s)[j] in s[..]
  {
    if s != [] {
      MarkdownOnlyMembers(s[1..]);
      var r := MarkdownOnly(s);
      var rest := MarkdownOnly(s[1..]);
      forall j | 0 <= j < |r| ensures r[j] in s {
        if EndsWith(s[0], MarkdownSuffix) && j == 0 {
          assert r[0] == s[0];
        } else {
          var k := if EndsWith(s[0], MarkdownSuffix) then j - 1 else j;
          assert r[j] == rest[k];
          assert rest[k] in s[1..];
        }
      }
    }
  }

  /** A sorted listing gives its `.md` entries in sorted order. */
  lemma {:induction false} MarkdownOnlySorted(s: seq<string>)
    requires Sorted(s)
    ensures Sorted(MarkdownOnly(s))
  {
    if s != [] {
      var r := MarkdownOnly(s);
      var rest := MarkdownOnly(s[1..]);
      assert Sorted(s[1..]);
      MarkdownOnlySorted(s[1..]);
      if EndsWith(s[0], MarkdownSuffix) {
        MarkdownOnlyMembers(s[1..]);
        forall j | 0 <= j < |rest| ensures LexLe(s[0], rest[j]) {
          var k :| 0 <= k < |s[1..]| && s[1..][k] == rest[j];
          assert s[k + 1] == rest[j];
        }
        assert r == [s[0]] + rest;
        forall a, b | 0 <= a < b < |r| ensures LexLe(r[a], r[b]) {
          assert r[b] == rest[b - 1];
          if a > 0 {
            assert r[a] == rest[a - 1];
          }
        }
      }
    }
  }

  /** `list_all_pages`: the `.md` entries of `_pages` in ascending order, each
      with the permalink its front matter gives; `sorted(os.listdir(...))`
      raises when `_pages` is no directory. */
  method ListAllPages(fs: FileSystem, yaml: Loader, listing: seq<string>) returns (r: Outcome<seq<PageRow>>)
    ensures !fs.Exists(PagesDir) ==> r == Returned([])
    ensures r.Raised? <==> PagesUnlistable(fs)
    ensures r.Returned? && fs.Exists(PagesDir) ==> Names(r.value) == MarkdownOnly(Sort(listing))
    ensures r.Returned? ==> Sorted(Names(r.value))
    ensures r.Returned? && fs.Exists(PagesDir) ==>
              forall x {:trigger multiset(Names(r.value))[x]} ::
                multiset(Names(r.value))[x] == if EndsWith(x, MarkdownSuffix) then multiset(listing)[x] else 0
    ensures r.Returned? ==> forall i :: 0 <= i < |r.value| ==>
              r.value[i].permalink == ExtractPermalink(fs, yaml, Child(PagesDir, r.value[i].name))
  {
    if !fs.Exists(PagesDir) {
      return Returned([]);
    }
    if PagesDir !in fs.dirs {
      return Raised;
    }
    var sorted := Sort(listing);
    var rows := ReadPages(fs, yaml, sorted);
    MarkdownOnlyMultiset(sorted);
    MarkdownOnlySorted(sorted);
    r := Returned(rows);
  }

  /** The loop of `list_all_pages` over the sorted listing. */
  method ReadPages(fs: FileSystem, yaml: Loader, sorted: seq<string>) returns (rows: seq<PageRow>)
    ensures Names(rows) == MarkdownOnly(sorted)
    ensures forall i :: 0 <= i < |rows| ==>
              rows[i].permalink == ExtractPermalink(fs, yaml, Child(PagesDir, rows[i].name))
  {
    rows := [];
    for i := 0 to |sorted|
      invariant Names(rows) == MarkdownOnly(sorted[..i])
      invariant forall k :: 0 <= k < |rows| ==>
                  rows[k].permalink == ExtractPermalink(fs, yaml, Child(PagesDir, rows[k].name))
    {
      MarkdownOnlyAppend(sorted[..i], sorted[i]);
      assert sorted[..i + 1] == sorted[..i] + [sorted[i]];
      var filename := sorted[i];
      if EndsWith(filename, MarkdownSuffix) {
        var permalink := ExtractPermalink(fs, yaml, Child(PagesDir, filename));
        NamesAppend(rows, PageRow(filename, permalink));
        rows := rows + [PageRow(filename, permalink)];
      }
    }
    assert sorted[..|sorted|] == sorted;
  }

  lemma {:induction false} MarkdownOnlyAppend(s: seq<string>, x: string)
    ensures MarkdownOnly(s + [x]) ==
            MarkdownOnly(s) + (if EndsWith(x, MarkdownSuffix) then [x] else [])
  {
    if s != [] {
      assert (s + [x])[1..] == s[1..] + [x];
      MarkdownOnlyAppend(s[1..], x);
    } else {
      assert [x][1..] == [];
    }
  }

  lemma NamesAppend(rows: seq<PageRow>, row: PageRow)
    ensures Names(rows + [row]) == Names(rows) + [row.name]
  {
  }

  /** The process exit status: 0 after a successful verification, 1 after a
      failed one or an uncaught exception. */
  function ExitStatus(r: Outcome<bool>): (code: int)
    ensures code == 0 || code == 1
    ensures code == 0 <==> r == Returned(true)
  {
    if r == Returned(true) then 0 else 1
  }

  /** `__main__`: the verification, then the page list, whatever the
      verdict; either raising ends the process with status 1. */
  method RunNavigation(fs: FileSystem, yaml: Loader, listing: seq<string>) returns (code: int)
    ensures code == 0 || code == 1
    ensures code == 0 <==>
              fs.Exists(NavigationFile) && NavigationEntries(fs, yaml).Some? &&
              Judged(fs, NavigationEntries(fs, yaml).value) == |NavigationEntries(fs, yaml).value| &&
              AllValid(fs, yaml, listing, NavigationEntries(fs, yaml).value) &&
              !PagesUnlistable(fs)
  {
    var success, verdicts := VerifyNavigation(fs, yaml, listing);
    if success.Raised? {
      return 1;
    }
    var rows := ListAllPages(fs, yaml, listing);
    if rows.Raised? {
      return 1;
    }
    code := ExitStatus(success);
  }
}
