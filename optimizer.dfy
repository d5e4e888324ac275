/** The performance optimizer: three analyses whose findings it prints (the
    stylesheets, the layouts and includes, and the images), run one after
    the other by its `main`. */
module Optimizer {
  import opened Text
  import opened Site
  import opened Seqs
  import opened Patterns
  import opened Listings
  import Paths

  /** A file that `os.walk(top)` yields: the directory it was listed in and
      its name, which holds no separator. */
  datatype WalkFile = WalkFile(root: string, name: string)
  {
    /** `os.path.join(root, file)`. */
    function Path(): string {
      Paths.Child(root, name)
    }
  }

  /** The files `os.walk(top)` yields below an existing directory `top`, in
      the order it yields them. */
  type Walk = string -> seq<WalkFile>

  /** `os.walk(top)` yields nothing when `top` is not a directory. */
  function Walked(fs: FileSystem, walk: Walk, top: string): seq<WalkFile> {
    if top in fs.dirs then walk(top) else []
  }

  function PathOf(): WalkFile -> string {
    (f: WalkFile) => f.Path()
  }

  // ----- the stylesheets -----

  const SassDir := "_sass"
  const MainScss := "assets/css/main.scss"
  const Important := "!important"
  const ImportantLimit := 5
  const OldPrefixes: seq<string> := ["-moz-border-radius", "-webkit-border-radius", "-ms-filter"]

  predicate IsScss(f: WalkFile) {
    EndsWith(f.name, ".scss")
  }

  function ScssTest(): WalkFile -> bool {
    (f: WalkFile) => IsScss(f)
  }

  /** `css_files`: the `.scss` files below `_sass`, then the main stylesheet
      when it exists. */
  function CssFiles(fs: FileSystem, walk: Walk): seq<string> {
    Map(Filter(Walked(fs, walk, SassDir), ScssTest()), PathOf()) +
    (if fs.Exists(MainScss) then [MainScss] else [])
  }

  method CollectCssFiles(fs: FileSystem, walk: Walk) returns (files: seq<string>)
    ensures files == CssFiles(fs, walk)
  {
    var entries := Walked(fs, walk, SassDir);
    files := [];
    ghost var scss: seq<WalkFile> := [];
    for i := 0 to |entries|
      invariant scss == Filter(entries[..i], ScssTest())
      invariant files == Map(scss, PathOf())
    {
      assert entries[..i + 1] == entries[..i] + [entries[i]];
      FilterSnoc(entries[..i], entries[i], ScssTest());
      if EndsWith(entries[i].name, ".scss") {
        MapSnoc(scss, entries[i], PathOf());
        scss := scss + [entries[i]];
        files := files + [Paths.Child(entries[i].root, entries[i].name)];
      }
    }
    assert entries[..|entries|] == entries;
    if fs.Exists(MainScss) {
      files := files + [MainScss];
    }
  }

  /** A finding about one stylesheet. */
  datatype CssIssue =
    | ImportantOveruse(file: string, count: nat)
    | OutdatedPrefix(file: string, prefix: string)

  /** The prefixes of `ps` that occur in `c`, in the order of `ps`. */
  function PrefixIssues(file: string, c: string, ps: seq<string>): seq<CssIssue> {
    if ps == [] then []
    else PrefixIssues(file, c, ps[..|ps| - 1]) +
         (if Contains(c, ps[|ps| - 1]) then [OutdatedPrefix(file, ps[|ps| - 1])] else [])
  }

  /** What one readable stylesheet adds to `issues`. */
  function FileCssIssues(file: string, c: string): seq<CssIssue> {
    (if Contains(c, Important) && Count(c, Important) > ImportantLimit
     then [ImportantOveruse(file, Count(c, Important))] else []) +
    PrefixIssues(file, c, OldPrefixes)
  }

  /** What a stylesheet adds: nothing when it cannot be read. */
  function CssIssuesOf(fs: FileSystem, file: string): seq<CssIssue> {
    match fs.Read(file)
    case None => []
    case Some(c) => FileCssIssues(file, c)
  }

  function CssIssueTest(fs: FileSystem): string -> seq<CssIssue> {
    (file: string) => CssIssuesOf(fs, file)
  }

  /** `len(content.encode('utf-8'))`, and nothing for a file that cannot be read. */
  function ReadSize(fs: FileSystem, file: string): nat {
    match fs.Read(file)
    case None => 0
    case Some(c) => Utf8Length(c)
  }

  function ReadSizeTest(fs: FileSystem): string -> nat {
    (file: string) => ReadSize(fs, file)
  }

  /** What `analyze_css_performance` prints: the stylesheets, their total size
      in bytes and the issues found. */
  datatype CssAnalysis = CssAnalysis(files: seq<string>, totalSize: nat, issues: seq<CssIssue>)
  {
    /** "No major CSS performance issues found!" */
    predicate Clean() {
      issues == []
    }
  }

  function CssAnalysisOf(fs: FileSystem, walk: Walk): CssAnalysis {
    var files := CssFiles(fs, walk);
    CssAnalysis(files, Sum(files, ReadSizeTest(fs)), FlatMap(files, CssIssueTest(fs)))
  }

  method AnalyzeCssPerformance(fs: FileSystem, walk: Walk) returns (a: CssAnalysis)
    ensures a == CssAnalysisOf(fs, walk)
  {
    var files := CollectCssFiles(fs, walk);
    var total: nat := 0;
    var issues: seq<CssIssue> := [];
    for i := 0 to |files|
      invariant total == Sum(files[..i], ReadSizeTest(fs))
      invariant issues == FlatMap(files[..i], CssIssueTest(fs))
    {
      assert files[..i + 1] == files[..i] + [files[i]];
      SumSnoc(files[..i], files[i], ReadSizeTest(fs));
      FlatMapSnoc(files[..i], files[i], CssIssueTest(fs));
      var content := fs.Read(files[i]);
      if content.Some? {
        var c := content.value;
        total := total + Utf8Length(c);
        issues := ScanStylesheet(issues, files[i], c);
      }
    }
    assert files[..|files|] == files;
    a := CssAnalysis(files, total, issues);
  }

  /** The checks on the contents `c` of one stylesheet. */
  method ScanStylesheet(issues0: seq<CssIssue>, file: string, c: string) returns (issues: seq<CssIssue>)
    ensures issues == issues0 + FileCssIssues(file, c)
  {
    issues := issues0;
    if Contains(c, Important) {
      var count := Count(c, Important);
      if count > ImportantLimit {
        issues := issues + [ImportantOveruse(file, count)];
      }
    }
    issues := ScanPrefixes(issues, file, c);
  }

  /** The loop over the outdated prefixes. */
  method ScanPrefixes(issues0: seq<CssIssue>, file: string, c: string) returns (issues: seq<CssIssue>)
    ensures issues == issues0 + PrefixIssues(file, c, OldPrefixes)
  {
    issues := issues0;
    for j := 0 to |OldPrefixes|
      invariant issues == issues0 + PrefixIssues(file, c, OldPrefixes[..j])
    {
      assert OldPrefixes[..j + 1][..j] == OldPrefixes[..j];
      if Contains(c, OldPrefixes[j]) {
        issues := issues + [OutdatedPrefix(file, OldPrefixes[j])];
      }
    }
    assert OldPrefixes[..|OldPrefixes|] == OldPrefixes;
  }

  /** The prefix issues name the file and exactly the prefixes of `ps` that
      occur, at most one each. */
  lemma {:induction false} PrefixIssuesSpec(file: string, c: string, ps: seq<string>)
    ensures |PrefixIssues(file, c, ps)| <= |ps|
    ensures forall x :: x in PrefixIssues(file, c, ps) ==> x.OutdatedPrefix?
    ensures forall f, p :: OutdatedPrefix(f, p) in PrefixIssues(file, c, ps) <==> f == file && p in ps && Contains(c, p)
  {
    if ps != [] {
      var init := ps[..|ps| - 1];
      PrefixIssuesSpec(file, c, init);
      assert ps == init + [ps[|ps| - 1]];
    }
  }

  /** An `!important` issue is reported exactly when the stylesheet has more
      than five non-overlapping occurrences, and it reports that number. */
  lemma ImportantIssueIff(file: string, c: string, n: nat)
    ensures ImportantOveruse(file, n) in FileCssIssues(file, c) <==> n == Count(c, Important) && n > ImportantLimit
  {
    PrefixIssuesSpec(file, c, OldPrefixes);
  }

  /** One issue per outdated prefix the stylesheet contains, so at most
      three of them and at most four issues per stylesheet. */
  lemma OutdatedPrefixIff(file: string, c: string, p: string)
    ensures OutdatedPrefix(file, p) in FileCssIssues(file, c) <==> p in OldPrefixes && Contains(c, p)
    ensures |PrefixIssues(file, c, OldPrefixes)| <= 3 && |FileCssIssues(file, c)| <= 4
  {
    PrefixIssuesSpec(file, c, OldPrefixes);
  }

  /** The text of a file, or nothing when it cannot be read. */
  function TextOf(fs: FileSystem, file: string): string {
    match fs.Read(file)
    case None => ""
    case Some(c) => c
  }

  function TextTest(fs: FileSystem): string -> string {
    (file: string) => TextOf(fs, file)
  }

  /** The total size is the length of the UTF-8 encoding of all readable
      stylesheets put end to end. */
  lemma {:induction false} TotalSizeIsEncoding(fs: FileSystem, files: seq<string>)
    ensures Sum(files, ReadSizeTest(fs)) == Utf8Length(FlatMap(files, TextTest(fs)))
  {
    if files != [] {
      var init := files[..|files| - 1];
      var last := files[|files| - 1];
      TotalSizeIsEncoding(fs, init);
      Utf8LengthAppend(FlatMap(init, TextTest(fs)), TextOf(fs, last));
    }
  }

  // ----- the layouts and includes -----

  const LayoutsDir := "_layouts"
  const IncludesDir := "_includes"
  const InlineStyleLimit := 3

  function ChildTest(dir: string): string -> string {
    (file: string) => Paths.Child(dir, file)
  }

  /** The `.html` entries `os.listdir(dir)` yields, joined to `dir`, when
      `dir` exists; `listdir` raises when `dir` is not a directory. */
  function HtmlFilesIn(fs: FileSystem, listing: Listing, dir: string): Outcome<seq<string>> {
    if !fs.Exists(dir) then Returned([])
    else if dir !in fs.dirs then Raised
    else Returned(Map(Filter(listing(dir), EndsWithTest(".html")), ChildTest(dir)))
  }

  method ListHtmlFiles(fs: FileSystem, listing: Listing, dir: string) returns (r: Outcome<seq<string>>)
    ensures r == HtmlFilesIn(fs, listing, dir)
  {
    if !fs.Exists(dir) {
      return Returned([]);
    }
    if dir !in fs.dirs {
      return Raised;
    }
    var entries := listing(dir);
    var files: seq<string> := [];
    ghost var html: seq<string> := [];
    for i := 0 to |entries|
      invariant html == Filter(entries[..i], EndsWithTest(".html"))
      invariant files == Map(html, ChildTest(dir))
    {
      assert entries[..i + 1] == entries[..i] + [entries[i]];
      FilterSnoc(entries[..i], entries[i], EndsWithTest(".html"));
      if EndsWith(entries[i], ".html") {
        MapSnoc(html, entries[i], ChildTest(dir));
        html := html + [entries[i]];
        files := files + [Paths.Child(dir, entries[i])];
      }
    }
    assert entries[..|entries|] == entries;
    r := Returned(files);
  }

  /** `style="[^"]*"` at `i`: the attribute and its quoted value, which must
      be closed. */
  function StyleAttrEnd(s: string, i: nat): (e: int)
    ensures e == -1 || i + 8 <= e <= |s|
  {
    if IsAt(s, "style=\"", i) && RunEnd(s, i + 7, {'"'}) < |s| then RunEnd(s, i + 7, {'"'}) + 1 else -1
  }

  function StyleAttrMatcher(s: string): nat -> int {
    (i: nat) => StyleAttrEnd(s, i)
  }

  /** `re.findall(r'style="[^"]*"', s)`. */
  function StyleAttrs(s: string): seq<string> {
    FindAll(s, StyleAttrMatcher(s))
  }

  /** `<img[^>]*>` at `i`: the tag up to its first `>`, which must exist. */
  function ImgTagEnd(s: string, i: nat): (e: int)
    ensures e == -1 || i + 5 <= e <= |s|
  {
    if IsAt(s, "<img", i) && RunEnd(s, i + 4, {'>'}) < |s| then RunEnd(s, i + 4, {'>'}) + 1 else -1
  }

  function ImgTagMatcher(s: string): nat -> int {
    (i: nat) => ImgTagEnd(s, i)
  }

  /** `re.findall(r'<img[^>]*>', s)`. */
  function ImgTags(s: string): seq<string> {
    FindAll(s, ImgTagMatcher(s))
  }

  /** A whole inline style: `style="`, a value without quotes, `"`. */
  predicate IsStyleAttr(m: string) {
    StartsWith(m, "style=\"") && |m| >= 8 && m[|m| - 1] == '"' &&
    forall k :: 7 <= k < |m| - 1 ==> m[k] != '"'
  }

  /** A whole image tag: `<img`, anything but `>`, then `>`. */
  predicate IsImgTag(m: string) {
    StartsWith(m, "<img") && |m| >= 5 && m[|m| - 1] == '>' &&
    forall k :: 4 <= k < |m| - 1 ==> m[k] != '>'
  }

  lemma StyleAttrAtIsAttr(s: string, i: nat)
    requires StyleAttrEnd(s, i) != -1
    ensures IsStyleAttr(s[i..StyleAttrEnd(s, i)])
  {
    var m := s[i..StyleAttrEnd(s, i)];
    assert m[..7] == s[i..i + 7];
    assert forall k :: 0 <= k < |m| ==> m[k] == s[i + k];
  }

  lemma ImgTagAtIsTag(s: string, i: nat)
    requires ImgTagEnd(s, i) != -1
    ensures IsImgTag(s[i..ImgTagEnd(s, i)])
  {
    var m := s[i..ImgTagEnd(s, i)];
    assert m[..4] == s[i..i + 4];
    assert forall k :: 0 <= k < |m| ==> m[k] == s[i + k];
  }

  /** Every inline style found is a whole closed attribute. */
  lemma StyleAttrsShape(s: string)
    ensures forall j :: 0 <= j < |StyleAttrs(s)| ==> IsStyleAttr(StyleAttrs(s)[j])
  {
    var end := StyleAttrMatcher(s);
    var found := StyleAttrs(s);
    FindAllFromMatches(s, end, 0);
    forall j | 0 <= j < |found| ensures IsStyleAttr(found[j]) {
      var i :| 0 <= i < |s| && end(i) != -1 && found[j] == s[i..end(i)];
      StyleAttrAtIsAttr(s, i);
    }
  }

  /** Every image tag found is a whole tag. */
  lemma ImgTagsShape(s: string)
    ensures forall j :: 0 <= j < |ImgTags(s)| ==> IsImgTag(ImgTags(s)[j])
  {
    var end := ImgTagMatcher(s);
    var found := ImgTags(s);
    FindAllFromMatches(s, end, 0);
    forall j | 0 <= j < |found| ensures IsImgTag(found[j]) {
      var i :| 0 <= i < |s| && end(i) != -1 && found[j] == s[i..end(i)];
      ImgTagAtIsTag(s, i);
    }
  }

  /** A finding about one layout or include. */
  datatype HtmlIssue =
    | DocumentWrite(file: string)
    | InlineStyles(file: string, count: nat)
    | MissingAlt(file: string)

  /** Some image tag of `c` has no `alt=`. */
  predicate HasTagWithoutAlt(c: string) {
    exists j :: 0 <= j < |ImgTags(c)| && !Contains(ImgTags(c)[j], "alt=")
  }

  /** What one readable template adds to `issues`. */
  function FileHtmlIssues(file: string, c: string): seq<HtmlIssue> {
    ScriptAndStyleIssues(file, c) + (if HasTagWithoutAlt(c) then [MissingAlt(file)] else [])
  }

  /** The issues before the image check: `document.write`, then the inline styles. */
  function ScriptAndStyleIssues(file: string, c: string): seq<HtmlIssue> {
    (if Contains(c, "document.write") then [DocumentWrite(file)] else []) +
    (if |StyleAttrs(c)| > InlineStyleLimit then [InlineStyles(file, |StyleAttrs(c)|)] else [])
  }

  function HtmlIssuesOf(fs: FileSystem, file: string): seq<HtmlIssue> {
    match fs.Read(file)
    case None => []
    case Some(c) => FileHtmlIssues(file, c)
  }

  function HtmlIssueTest(fs: FileSystem): string -> seq<HtmlIssue> {
    (file: string) => HtmlIssuesOf(fs, file)
  }

  /** What `analyze_html_structure` prints: the templates and the issues found. */
  datatype HtmlAnalysis = HtmlAnalysis(files: seq<string>, issues: seq<HtmlIssue>)

  function HtmlAnalysisOf(fs: FileSystem, listing: Listing): Outcome<HtmlAnalysis> {
    match (HtmlFilesIn(fs, listing, LayoutsDir), HtmlFilesIn(fs, listing, IncludesDir))
    case (Returned(layouts), Returned(includes)) =>
      Returned(HtmlAnalysis(layouts + includes, FlatMap(layouts + includes, HtmlIssueTest(fs))))
    case _ => Raised
  }

  method AnalyzeHtmlStructure(fs: FileSystem, listing: Listing) returns (r: Outcome<HtmlAnalysis>)
    ensures r == HtmlAnalysisOf(fs, listing)
  {
    var layouts := ListHtmlFiles(fs, listing, LayoutsDir);
    if layouts.Raised? {
      return Raised;
    }
    var includes := ListHtmlFiles(fs, listing, IncludesDir);
    if includes.Raised? {
      return Raised;
    }
    var files := layouts.value + includes.value;
    var issues: seq<HtmlIssue> := [];
    for i := 0 to |files|
      invariant issues == FlatMap(files[..i], HtmlIssueTest(fs))
    {
      HtmlStep(fs, files, i);
      issues := ScanFile(fs, issues, files[i]);
    }
    assert files[..|files|] == files;
    r := Returned(HtmlAnalysis(files, issues));
  }

  lemma HtmlStep(fs: FileSystem, files: seq<string>, i: nat)
    requires i < |files|
    ensures FlatMap(files[..i + 1], HtmlIssueTest(fs)) == FlatMap(files[..i], HtmlIssueTest(fs)) + HtmlIssuesOf(fs, files[i])
  {
    assert files[..i + 1] == files[..i] + [files[i]];
    FlatMapSnoc(files[..i], files[i], HtmlIssueTest(fs));
  }

  /** One template: an unreadable one adds nothing. */
  method ScanFile(fs: FileSystem, issues0: seq<HtmlIssue>, file: string) returns (issues: seq<HtmlIssue>)
    ensures issues == issues0 + HtmlIssuesOf(fs, file)
  {
    issues := issues0;
    var content := fs.Read(file);
    if content.Some? {
      issues := ScanTemplate(issues, file, content.value);
    }
  }

  /** The checks on the contents `c` of one template; the loop over the image
      tags stops at the first one without `alt=`. */
  method ScanTemplate(issues0: seq<HtmlIssue>, file: string, c: string) returns (issues: seq<HtmlIssue>)
    ensures issues == issues0 + FileHtmlIssues(file, c)
  {
    issues := issues0;
    if Contains(c, "document.write") {
      issues := issues + [DocumentWrite(file)];
    }
    var styles := StyleAttrs(c);
    if |styles| > InlineStyleLimit {
      issues := issues + [InlineStyles(file, |styles|)];
    }
    var tags := ImgTags(c);
    ghost var before := issues;
    var j := 0;
    while j < |tags|
      invariant 0 <= j <= |tags| && issues == before
      invariant forall k :: 0 <= k < j ==> Contains(tags[k], "alt=")
    {
      if !Contains(tags[j], "alt=") {
        issues := issues + [MissingAlt(file)];
        break;
      }
      j := j + 1;
    }
  }

  /** An inline-style issue is reported exactly when the template has more
      than three inline styles, and it reports how many. */
  lemma InlineStylesIff(file: string, c: string, n: nat)
    ensures InlineStyles(file, n) in FileHtmlIssues(file, c) <==> n == |StyleAttrs(c)| && n > InlineStyleLimit
  {
  }

  function MissingAltTest(): HtmlIssue -> bool {
    (x: HtmlIssue) => x.MissingAlt?
  }

  /** At most one missing-alt issue per template, and one exactly when some
      image tag lacks `alt=`. */
  lemma MissingAltOnce(file: string, c: string)
    ensures |Filter(FileHtmlIssues(file, c), MissingAltTest())| <= 1
    ensures MissingAlt(file) in FileHtmlIssues(file, c) <==> HasTagWithoutAlt(c)
  {
    var p := ScriptAndStyleIssues(file, c);
    var m := if HasTagWithoutAlt(c) then [MissingAlt(file)] else [];
    assert |p| <= 2 && forall i :: 0 <= i < |p| ==> !p[i].MissingAlt?;
    FilterAppend(p, m, MissingAltTest());
    FilterEmptyIff(p, MissingAltTest());
  }

  // ----- the images -----

  const ImagesDir := "images"
  const LargeImageBytes := 500000
  const ShownLarge := 5

  /** `file.lower().endswith(('.jpg', '.jpeg', '.png', '.gif', '.webp'))`. */
  predicate SupportedName(name: string) {
    var l := Lower(name);
    EndsWith(l, ".jpg") || EndsWith(l, ".jpeg") || EndsWith(l, ".png") || EndsWith(l, ".gif") || EndsWith(l, ".webp")
  }

  /** `file.lower().endswith(('.png', '.jpg', '.jpeg'))`. */
  predicate RasterName(name: string) {
    var l := Lower(name);
    EndsWith(l, ".png") || EndsWith(l, ".jpg") || EndsWith(l, ".jpeg")
  }

  predicate Supported(f: WalkFile) {
    SupportedName(f.name)
  }

  function SupportedTest(): WalkFile -> bool {
    (f: WalkFile) => Supported(f)
  }

  /** `os.path.splitext(path)[0] + '.webp'`. */
  function WebpSibling(path: string): string {
    Paths.SplitExtRoot(path) + ".webp"
  }

  /** A PNG or JPEG image without its WebP sibling. */
  predicate Unoptimized(fs: FileSystem, f: WalkFile) {
    RasterName(f.name) && !fs.Exists(WebpSibling(f.Path()))
  }

  function UnoptimizedTest(fs: FileSystem): WalkFile -> bool {
    (f: WalkFile) => Unoptimized(fs, f)
  }

  /** An image and the size `os.path.getsize` reports, in bytes. */
  datatype SizedImage = SizedImage(path: string, size: nat)

  function SizedImageOf(fs: FileSystem, f: WalkFile): SizedImage {
    SizedImage(f.Path(), if f.Path() in fs.sizes then fs.sizes[f.Path()] else 0)
  }

  function SizedTest(fs: FileSystem): WalkFile -> SizedImage {
    (f: WalkFile) => SizedImageOf(fs, f)
  }

  predicate IsLarge(x: SizedImage) {
    x.size > LargeImageBytes
  }

  function SizeTest(): SizedImage -> nat {
    (x: SizedImage) => x.size
  }

  function LargeImageTest(): SizedImage -> bool {
    (x: SizedImage) => IsLarge(x)
  }

  /** What `check_image_optimization` prints. */
  datatype ImageCheck =
    | NoImagesDir
    | ImageCheck(images: seq<SizedImage>, large: seq<SizedImage>, unoptimized: seq<string>)
  {
    /** `total_size`. */
    function TotalSize(): nat
      requires ImageCheck?
    {
      Sum(images, SizeTest())
    }

    /** `large_images[:5]`, the large images listed by name. */
    function Shown(): seq<SizedImage>
      requires ImageCheck?
    {
      if |large| <= ShownLarge then large else large[..ShownLarge]
    }

    /** The count in "... and N more". */
    function MoreLarge(): nat
      requires ImageCheck?
    {
      if |large| > ShownLarge then |large| - ShownLarge else 0
    }

    /** "Images appear to be well optimized!" */
    predicate WellOptimized() {
      ImageCheck? && large == [] && unoptimized == []
    }
  }

  /** A supported image whose size `getsize` cannot report. */
  predicate Unsized(fs: FileSystem, found: seq<WalkFile>) {
    exists i :: 0 <= i < |found| && found[i].Path() !in fs.sizes
  }

  function ImageCheckOf(fs: FileSystem, walk: Walk): Outcome<ImageCheck> {
    if !fs.Exists(ImagesDir) then Returned(NoImagesDir)
    else
      var found := Filter(Walked(fs, walk, ImagesDir), SupportedTest());
      if Unsized(fs, found) then Raised
      else
        var images := Map(found, SizedTest(fs));
        Returned(ImageCheck(images, Filter(images, LargeImageTest()),
                            Map(Filter(found, UnoptimizedTest(fs)), PathOf())))
  }

  /** The loop state after the entries `done`. */
  predicate ImagesScanned(fs: FileSystem, done: seq<WalkFile>, found: seq<WalkFile>,
                          images: seq<SizedImage>, large: seq<SizedImage>, unoptimized: seq<string>)
  {
    && found == Filter(done, SupportedTest())
    && images == Map(found, SizedTest(fs))
    && large == Filter(images, LargeImageTest())
    && unoptimized == Map(Filter(found, UnoptimizedTest(fs)), PathOf())
  }

  lemma ImageStep(fs: FileSystem, done: seq<WalkFile>, f: WalkFile, found: seq<WalkFile>,
                  images: seq<SizedImage>, large: seq<SizedImage>, unoptimized: seq<string>)
    requires ImagesScanned(fs, done, found, images, large, unoptimized)
    ensures !Supported(f) ==> ImagesScanned(fs, done + [f], found, images, large, unoptimized)
    ensures Supported(f) ==>
              ImagesScanned(fs, done + [f], found + [f], images + [SizedImageOf(fs, f)],
                            large + (if IsLarge(SizedImageOf(fs, f)) then [SizedImageOf(fs, f)] else []),
                            unoptimized + (if Unoptimized(fs, f) then [f.Path()] else []))
  {
    FilterSnoc(done, f, SupportedTest());
    if Supported(f) {
      var x := SizedImageOf(fs, f);
      MapSnoc(found, f, SizedTest(fs));
      FilterSnoc(images, x, LargeImageTest());
      var kept := Filter(found, UnoptimizedTest(fs));
      FilterSnoc(found, f, UnoptimizedTest(fs));
      if Unoptimized(fs, f) {
        MapSnoc(kept, f, PathOf());
      } else {
        assert Filter(found + [f], UnoptimizedTest(fs)) == kept + [] == kept;
        assert unoptimized + [] == unoptimized;
      }
    }
  }

  method CheckImageOptimization(fs: FileSystem, walk: Walk) returns (r: Outcome<ImageCheck>)
    ensures r == ImageCheckOf(fs, walk)
  {
    if !fs.Exists(ImagesDir) {
      return Returned(NoImagesDir);
    }
    var entries := Walked(fs, walk, ImagesDir);
    ghost var found: seq<WalkFile> := [];
    var images: seq<SizedImage> := [];
    var large: seq<SizedImage> := [];
    var unoptimized: seq<string> := [];
    for i := 0 to |entries|
      invariant ImagesScanned(fs, entries[..i], found, images, large, unoptimized)
      invariant !Unsized(fs, found)
    {
      var f := entries[i];
      assert entries[..i + 1] == entries[..i] + [f];
      ImageStep(fs, entries[..i], f, found, images, large, unoptimized);
      if SupportedName(f.name) {
        var path := Paths.Child(f.root, f.name);
        if path !in fs.sizes {
          FilterMembership(entries, SupportedTest());
          UnsizedFound(fs, Filter(entries, SupportedTest()), f);
          return Raised;
        }
        var x := SizedImage(path, fs.sizes[path]);
        images := images + [x];
        large := large + (if x.size > LargeImageBytes then [x] else []);
        unoptimized := unoptimized + (if RasterName(f.name) && !fs.Exists(Paths.SplitExtRoot(path) + ".webp") then [path] else []);
        found := found + [f];
      }
    }
    assert entries[..|entries|] == entries;
    r := Returned(ImageCheck(images, large, unoptimized));
  }

  lemma UnsizedFound(fs: FileSystem, found: seq<WalkFile>, f: WalkFile)
    requires f in found && f.Path() !in fs.sizes
    ensures Unsized(fs, found)
  {
    var i :| 0 <= i < |found| && found[i] == f;
  }

  /** An image is listed as large exactly when it is one of the images and
      has more than 500000 bytes; at most five are shown, the first ones. */
  lemma LargeImagesSpec(fs: FileSystem, walk: Walk, x: SizedImage)
    requires ImageCheckOf(fs, walk).Returned? && ImageCheckOf(fs, walk).value.ImageCheck?
    ensures var check := ImageCheckOf(fs, walk).value;
            (x in check.large <==> x in check.images && x.size > LargeImageBytes) &&
            |check.Shown()| <= ShownLarge && check.Shown() + check.large[|check.Shown()|..] == check.large &&
            |check.Shown()| + check.MoreLarge() == |check.large|
  {
    var check := ImageCheckOf(fs, walk).value;
    FilterMembership(check.images, LargeImageTest());
    assert check.Shown() + check.large[|check.Shown()|..] == check.large;
  }

  /** A path is listed as unoptimized exactly when it is the path of a
      supported PNG or JPEG image whose WebP sibling does not exist. */
  lemma UnoptimizedIff(fs: FileSystem, walk: Walk, p: string)
    requires ImageCheckOf(fs, walk).Returned? && ImageCheckOf(fs, walk).value.ImageCheck?
    ensures var found := Filter(Walked(fs, walk, ImagesDir), SupportedTest());
            p in ImageCheckOf(fs, walk).value.unoptimized <==>
            exists f :: f in found && f.Path() == p && RasterName(f.name) && !fs.Exists(WebpSibling(p))
  {
    var found := Filter(Walked(fs, walk, ImagesDir), SupportedTest());
    var kept := Filter(found, UnoptimizedTest(fs));
    FilterMembership(found, UnoptimizedTest(fs));
    PathsListed(kept, p);
    assert ImageCheckOf(fs, walk).value.unoptimized == Map(kept, PathOf());
  }

  /** A path is among the paths of `files` exactly when one of them has it. */
  lemma PathsListed(files: seq<WalkFile>, p: string)
    ensures p in Map(files, PathOf()) <==> exists f :: f in files && f.Path() == p
  {
    MapIndex(files, PathOf());
    if p in Map(files, PathOf()) {
      var i :| 0 <= i < |files| && Map(files, PathOf())[i] == p;
      assert files[i] in files;
    }
    if exists f :: f in files && f.Path() == p {
      var f :| f in files && f.Path() == p;
      var i :| 0 <= i < |files| && files[i] == f;
      assert Map(files, PathOf())[i] == p;
    }
  }

  /** The images are well optimized exactly when every supported image has
      at most 500000 bytes and every PNG or JPEG among them has its WebP
      sibling. */
  lemma WellOptimizedIff(fs: FileSystem, walk: Walk)
    requires ImageCheckOf(fs, walk).Returned? && ImageCheckOf(fs, walk).value.ImageCheck?
    ensures var found := Filter(Walked(fs, walk, ImagesDir), SupportedTest());
            ImageCheckOf(fs, walk).value.WellOptimized() <==>
            forall i :: 0 <= i < |found| ==>
              fs.sizes[found[i].Path()] <= LargeImageBytes && !Unoptimized(fs, found[i])
  {
    var found := Filter(Walked(fs, walk, ImagesDir), SupportedTest());
    var images := Map(found, SizedTest(fs));
    MapIndex(found, SizedTest(fs));
    FilterEmptyIff(images, LargeImageTest());
    FilterEmptyIff(found, UnoptimizedTest(fs));
  }

  /** Nothing but dots. */
  predicate AllDots(s: string) {
    forall j :: 0 <= j < |s| ==> s[j] == '.'
  }

  /** A name whose lower-cased form `low` ends in `e` has the dot of `e`
      at the same place and no dot or separator after it. */
  lemma RasterEnding(name: string, low: string, e: string)
    requires e == ".png" || e == ".jpg" || e == ".jpeg"
    requires |low| == |name| && forall k :: 0 <= k < |name| ==> low[k] == LowerChar(name[k])
    requires EndsWith(low, e)
    ensures var d := |name| - |e|;
            name[d] == '.' && forall k :: d < k < |name| ==> name[k] != '.' && name[k] != '/'
  {
    var d := |name| - |e|;
    assert forall j :: 1 <= j < |e| ==> e[j] != '.' && e[j] != '/';
    forall k | d <= k < |name| ensures LowerChar(name[k]) == e[k - d] {
      assert low[d..][k - d] == low[k];
    }
  }

  /** For a PNG or JPEG name ending in `e`, the WebP sibling replaces `e`;
      but when everything before `e` is dots, `splitext` sees no extension
      and the sibling is the whole path plus `.webp`. */
  lemma WebpSiblingOf(root: string, name: string, e: string)
    requires e == ".png" || e == ".jpg" || e == ".jpeg"
    requires EndsWith(Lower(name), e) && '/' !in name
    ensures var stem := name[..|name| - |e|];
            WebpSibling(Paths.Child(root, name)) ==
            (if AllDots(stem) then Paths.Child(root, name) else Paths.Child(root, stem)) + ".webp"
  {
    var d := |name| - |e|;
    assert name[d] == '.' && forall k :: d < k < |name| ==> name[k] != '.' by {
      RasterEnding(name, Lower(name), e);
    }
    SiblingAtDot(root, name, d);
  }

  /** The sibling of a name whose last dot is at `d`. */
  lemma SiblingAtDot(root: string, name: string, d: nat)
    requires d < |name| && name[d] == '.' && '/' !in name
    requires forall k :: d < k < |name| ==> name[k] != '.'
    ensures WebpSibling(Paths.Child(root, name)) ==
            (if AllDots(name[..d]) then Paths.Child(root, name) else Paths.Child(root, name[..d])) + ".webp"
  {
    var p := Paths.Child(root, name);
    var stem := name[..d];
    var sep, dot := |root|, |root| + 1 + d;
    assert p[sep] == '/';
    assert forall k :: sep < k < |p| ==> p[k] == name[k - sep - 1];
    Paths.LastIndexAt(p, '/', sep);
    Paths.LastIndexAt(p, '.', dot);
    assert Paths.SplitExtRoot(p) == if exists k :: sep < k < dot && p[k] != '.' then p[..dot] else p;
    if AllDots(stem) {
      forall k | sep < k < dot ensures p[k] == '.' {
        assert p[k] == stem[k - sep - 1];
      }
    } else {
      var j :| 0 <= j < |stem| && stem[j] != '.';
      assert p[sep + 1 + j] == stem[j];
      assert p[..dot] == Paths.Child(root, stem);
    }
  }

  // ----- main -----

  /** What `main` gets through: every analysis runs unless one before it
      raised. */
  datatype OptimizerRun = OptimizerRun(
    css: CssAnalysis, html: Outcome<HtmlAnalysis>, images: Option<Outcome<ImageCheck>>)
  {
    /** The analyses all returned, so the report and `.htaccess` are written. */
    predicate Completed() {
      html.Returned? && images.Some? && images.value.Returned?
    }
  }

  function OptimizerRunOf(fs: FileSystem, walk: Walk, listing: Listing): OptimizerRun {
    var html := HtmlAnalysisOf(fs, listing);
    OptimizerRun(CssAnalysisOf(fs, walk), html, if html.Raised? then None else Some(ImageCheckOf(fs, walk)))
  }

  /** `main`: the three analyses; the exit status is 1 when one of them
      raises. */
  method RunOptimizer(fs: FileSystem, walk: Walk, listing: Listing) returns (run: OptimizerRun, code: int)
    ensures run == OptimizerRunOf(fs, walk, listing)
    ensures (code == 0 || code == 1) && (code == 0 <==> run.Completed())
  {
    var css := AnalyzeCssPerformance(fs, walk);
    var html := AnalyzeHtmlStructure(fs, listing);
    if html.Raised? {
      return OptimizerRun(css, html, None), 1;
    }
    var images := CheckImageOptimization(fs, walk);
    run := OptimizerRun(css, html, Some(images));
    code := if images.Raised? then 1 else 0;
  }

  /** Every supported image below `images` has a size `getsize` can report. */
  predicate ImagesSized(fs: FileSystem, walk: Walk) {
    forall f :: f in Walked(fs, walk, ImagesDir) && Supported(f) ==> f.Path() in fs.sizes
  }

  /** The run completes exactly when each template directory that exists is a
      directory and every supported image below `images` has a size. */
  lemma RunCompletesIff(fs: FileSystem, walk: Walk, listing: Listing)
    ensures OptimizerRunOf(fs, walk, listing).Completed() <==>
            (fs.Exists(LayoutsDir) ==> LayoutsDir in fs.dirs) &&
            (fs.Exists(IncludesDir) ==> IncludesDir in fs.dirs) &&
            (fs.Exists(ImagesDir) ==> ImagesSized(fs, walk))
  {
    var found := Filter(Walked(fs, walk, ImagesDir), SupportedTest());
    FilterMembership(Walked(fs, walk, ImagesDir), SupportedTest());
    if Unsized(fs, found) {
      var i :| 0 <= i < |found| && found[i].Path() !in fs.sizes;
      assert found[i] in found;
    } else if !ImagesSized(fs, walk) {
      var f :| f in Walked(fs, walk, ImagesDir) && Supported(f) && f.Path() !in fs.sizes;
      UnsizedFound(fs, found, f);
    }
  }
}
