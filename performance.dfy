/** The page performance part of the performance and SEO test: the image
    counters, the compression flags of the configuration and the stylesheets
    above 50 KB. A file whose size cannot be read is skipped, as the scans
    catch the exception. */
module Performance {
  import opened Text
  import opened Site
  import opened Seqs
  import opened Listings
  import Paths

  const ImagesDir := "images"
  const ConfigFile := "_config.yml"
  const SassDir := "_sass"
  const PagesDir := "_pages"
  const LayoutsDir := "_layouts"
  const IncludesDir := "_includes"

  /** 500 KB: an image above this size is large. */
  const LargeImageBytes := 500 * 1024
  /** 50 KB: a stylesheet above this size is a performance issue. */
  const LargeSassBytes := 50 * 1024

  // ----- image optimization -----

  /** The lower-cased suffixes counted as images. */
  predicate ImageSuffix(suffix: string) {
    suffix == ".png" || suffix == ".jpg" || suffix == ".jpeg" || suffix == ".gif" ||
    suffix == ".webp" || suffix == ".avif"
  }

  /** A regular file of the images directory with an image suffix. */
  predicate CountedImage(fs: FileSystem, name: string) {
    fs.IsFile(Paths.Child(ImagesDir, name)) && ImageSuffix(Lower(Paths.Suffix(name)))
  }

  predicate OptimizedImage(fs: FileSystem, name: string) {
    CountedImage(fs, name) && IsOptimized(name)
  }

  /** `stat` succeeds on the file and reports more than `limit` bytes. */
  predicate Larger(fs: FileSystem, path: string, limit: nat) {
    path in fs.sizes && fs.sizes[path] > limit
  }

  predicate LargeImage(fs: FileSystem, name: string) {
    CountedImage(fs, name) && Larger(fs, Paths.Child(ImagesDir, name), LargeImageBytes)
  }

  /** A counted image named like a backup, checked once `stat` has succeeded. */
  predicate BackupImage(fs: FileSystem, name: string) {
    CountedImage(fs, name) && Paths.Child(ImagesDir, name) in fs.sizes && EndsWith(name, ".backup")
  }

  function CountedTest(fs: FileSystem): string -> bool {
    (name: string) => CountedImage(fs, name)
  }

  function OptimizedImageTest(fs: FileSystem): string -> bool {
    (name: string) => OptimizedImage(fs, name)
  }

  function LargeImageTest(fs: FileSystem): string -> bool {
    (name: string) => LargeImage(fs, name)
  }

  function BackupTest(fs: FileSystem): string -> bool {
    (name: string) => BackupImage(fs, name)
  }

  /** A large file and the size `stat` reported, in bytes. */
  datatype LargeFile = LargeFile(file: string, size: nat)

  function SizeOf(fs: FileSystem, path: string): nat {
    if path in fs.sizes then fs.sizes[path] else 0
  }

  /** The entry listed for the file `name` of `dir`. */
  function EntryOf(fs: FileSystem, dir: string, name: string): LargeFile {
    LargeFile(name, SizeOf(fs, Paths.Child(dir, name)))
  }

  function LargeEntry(fs: FileSystem, dir: string): string -> LargeFile {
    (name: string) => EntryOf(fs, dir, name)
  }

  datatype ImageStats = ImageStats(
    totalImages: nat, optimizedFormats: nat,
    largeImages: seq<LargeFile>, unoptimizedImages: seq<string>)

  /** What the counters and lists hold after scanning the entries `names`. */
  function ImageStatsOf(fs: FileSystem, names: seq<string>): ImageStats {
    ImageStats(CountIf(names, CountedTest(fs)), CountIf(names, OptimizedImageTest(fs)),
               Map(Filter(names, LargeImageTest(fs)), LargeEntry(fs, ImagesDir)),
               Filter(names, BackupTest(fs)))
  }

  /** A name ending in `.backup` has suffix `.backup`, or none at all. */
  lemma BackupSuffix(name: string)
    requires EndsWith(name, ".backup")
    ensures |Paths.Suffix(name)| == 0 || |Paths.Suffix(name)| == 7
  {
    var e := ".backup";
    assert forall k :: 0 <= k < |e| ==> e[k] != '/';
    assert forall k :: 1 <= k < |e| ==> e[k] != '.';
    Paths.SuffixOfEnding(name, e);
  }

  /** A backup name never carries an image suffix, so `unoptimized_images`
      stays empty whatever the directory holds. */
  lemma UnoptimizedAlwaysEmpty(fs: FileSystem, names: seq<string>)
    ensures ImageStatsOf(fs, names).unoptimizedImages == []
  {
    forall i | 0 <= i < |names| ensures !BackupImage(fs, names[i]) {
      NoBackupImage(fs, names[i]);
    }
    FilterEmptyIff(names, BackupTest(fs));
  }

  lemma NoBackupImage(fs: FileSystem, name: string)
    ensures !BackupImage(fs, name)
  {
    if EndsWith(name, ".backup") {
      BackupSuffix(name);
    }
  }

  /** The optimized images are among the counted ones, and the image check
      passes exactly when one of them is in a modern format. */
  lemma ImageCounts(fs: FileSystem, names: seq<string>)
    ensures ImageStatsOf(fs, names).optimizedFormats <= ImageStatsOf(fs, names).totalImages
    ensures |ImageStatsOf(fs, names).largeImages| <= ImageStatsOf(fs, names).totalImages
    ensures ImageStatsOf(fs, names).optimizedFormats > 0 <==>
            exists i :: 0 <= i < |names| && OptimizedImage(fs, names[i])
  {
    CountIfMono(names, OptimizedImageTest(fs), CountedTest(fs));
    CountIfMono(names, LargeImageTest(fs), CountedTest(fs));
    CountIfFilter(names, LargeImageTest(fs));
    CountIfPositive(names, OptimizedImageTest(fs));
  }

  /** What one more entry of the images directory adds to the counters and
      lists. */
  function AddEntry(fs: FileSystem, stats: ImageStats, name: string): ImageStats {
    ImageStats(stats.totalImages + Indicator(CountedImage(fs, name)),
               stats.optimizedFormats + Indicator(OptimizedImage(fs, name)),
               stats.largeImages + (if LargeImage(fs, name) then [EntryOf(fs, ImagesDir, name)] else []),
               stats.unoptimizedImages + (if BackupImage(fs, name) then [name] else []))
  }

  lemma ImageStep(fs: FileSystem, names: seq<string>, i: nat)
    requires i < |names|
    ensures ImageStatsOf(fs, names[..i + 1]) == AddEntry(fs, ImageStatsOf(fs, names[..i]), names[i])
  {
    var s, x := names[..i], names[i];
    assert names[..i + 1] == s + [x];
    CountIfSnoc(s, x, CountedTest(fs));
    CountIfSnoc(s, x, OptimizedImageTest(fs));
    FilterSnoc(s, x, BackupTest(fs));
    LargeEntriesSnoc(fs, s, x);
  }

  /** One more entry adds its entry record to the large images when it is one. */
  lemma LargeEntriesSnoc(fs: FileSystem, s: seq<string>, x: string)
    ensures Map(Filter(s + [x], LargeImageTest(fs)), LargeEntry(fs, ImagesDir)) ==
            Map(Filter(s, LargeImageTest(fs)), LargeEntry(fs, ImagesDir)) +
            (if LargeImage(fs, x) then [EntryOf(fs, ImagesDir, x)] else [])
  {
    FilterSnoc(s, x, LargeImageTest(fs));
    var large := Filter(s, LargeImageTest(fs));
    if LargeImage(fs, x) {
      MapSnoc(large, x, LargeEntry(fs, ImagesDir));
    } else {
      assert large + [] == large;
    }
  }

  /** The body of the loop for one entry: the counters and lists it updates. */
  method ScanEntry(fs: FileSystem, stats0: ImageStats, name: string) returns (stats: ImageStats)
    ensures stats.totalImages == AddEntry(fs, stats0, name).totalImages
    ensures stats.optimizedFormats == AddEntry(fs, stats0, name).optimizedFormats
    ensures stats.largeImages == AddEntry(fs, stats0, name).largeImages
    ensures stats.unoptimizedImages == AddEntry(fs, stats0, name).unoptimizedImages
  {
    var total, optimized, large, unoptimized :=
      stats0.totalImages, stats0.optimizedFormats, stats0.largeImages, stats0.unoptimizedImages;
    var path := Paths.Child(ImagesDir, name);
    // a regular file whose lower-cased suffix is an image suffix
    if CountedImage(fs, name) {
      total := total + 1;
      if IsOptimized(name) {
        optimized := optimized + 1;
      }
      if path in fs.sizes {
        if fs.sizes[path] > LargeImageBytes {
          large := large + [LargeFile(name, fs.sizes[path])];
        }
        if EndsWith(name, ".backup") {
          unoptimized := unoptimized + [name];
        }
      }
    }
    stats := ImageStats(total, optimized, large, unoptimized);
  }

  /** The loop over `images_dir.glob("*")` with its four counters. */
  method CountImages(fs: FileSystem, names: seq<string>) returns (stats: ImageStats)
    ensures stats == ImageStatsOf(fs, names)
  {
    stats := ImageStats(0, 0, [], []);
    for i := 0 to |names|
      invariant stats == ImageStatsOf(fs, names[..i])
    {
      ImageStep(fs, names, i);
      stats := ScanEntry(fs, stats, names[i]);
    }
    assert names[..|names|] == names;
  }

  // ----- CSS optimization and large stylesheets -----

  datatype CssOptimization = CssOptimization(sassCompression: bool, htmlCompression: bool, assetOptimization: bool)
  {
    predicate Any() {
      sassCompression || htmlCompression || assetOptimization
    }
  }

  /** The three flags read off the configuration text; all unset when the
      configuration is missing or cannot be read. */
  function CssOptimizationOf(fs: FileSystem): CssOptimization {
    if !fs.Exists(ConfigFile) || ConfigFile !in fs.text then CssOptimization(false, false, false)
    else
      var c := fs.text[ConfigFile];
      CssOptimization(Contains(c, "style: compressed"), Contains(c, "compress_html:"),
                      Contains(c, "sass:") && Contains(c, "sourcemap: never"))
  }

  predicate LargeSass(fs: FileSystem, name: string) {
    Larger(fs, Paths.Child(SassDir, name), LargeSassBytes)
  }

  function LargeSassTest(fs: FileSystem): string -> bool {
    (name: string) => LargeSass(fs, name)
  }

  /** The performance issues: one per stylesheet above 50 KB. */
  function LargeSassFiles(fs: FileSystem, names: seq<string>): seq<LargeFile> {
    Map(Filter(names, LargeSassTest(fs)), LargeEntry(fs, SassDir))
  }

  /** No issue is reported exactly when every stylesheet whose size can be
      read is at most 50 KB. */
  lemma LargeSassEmptyIff(fs: FileSystem, names: seq<string>)
    ensures LargeSassFiles(fs, names) == [] <==> NoLargeSass(fs, names)
  {
    FilterEmptyIff(names, LargeSassTest(fs));
  }

  method CheckCssOptimization(fs: FileSystem) returns (css: CssOptimization)
    ensures css == CssOptimizationOf(fs)
  {
    var sass, html, asset := false, false, false;
    if fs.Exists(ConfigFile) && ConfigFile in fs.text {
      var content := fs.text[ConfigFile];
      if Contains(content, "style: compressed") {
        sass := true;
      }
      if Contains(content, "compress_html:") {
        html := true;
      }
      if Contains(content, "sass:") && Contains(content, "sourcemap: never") {
        asset := true;
      }
    }
    css := CssOptimization(sass, html, asset);
  }

  lemma LargeSassStep(fs: FileSystem, names: seq<string>, i: nat)
    requires i < |names|
    ensures LargeSassFiles(fs, names[..i + 1]) == LargeSassFiles(fs, names[..i]) +
              (if LargeSass(fs, names[i]) then [LargeFile(names[i], SizeOf(fs, Paths.Child(SassDir, names[i])))] else [])
  {
    var s, x := names[..i], names[i];
    assert names[..i + 1] == s + [x];
    FilterSnoc(s, x, LargeSassTest(fs));
    var large := Filter(s, LargeSassTest(fs));
    if LargeSass(fs, x) {
      MapSnoc(large, x, LargeEntry(fs, SassDir));
    } else {
      assert large + [] == large;
    }
  }

  method FindLargeSass(fs: FileSystem, names: seq<string>) returns (issues: seq<LargeFile>)
    ensures issues == LargeSassFiles(fs, names)
  {
    issues := [];
    for i := 0 to |names|
      invariant issues == LargeSassFiles(fs, names[..i])
    {
      var name := names[i];
      LargeSassStep(fs, names, i);
      var path := Paths.Child(SassDir, name);
      if path in fs.sizes && fs.sizes[path] > LargeSassBytes {
        issues := issues + [LargeFile(name, fs.sizes[path])];
      }
    }
    assert names[..|names|] == names;
  }

  datatype PerformanceResults = PerformanceResults(
    images: ImageStats, imagesStatus: Status,
    css: CssOptimization, cssStatus: Status,
    issues: seq<LargeFile>, issuesStatus: Status)

  /** The record `test_page_performance` stores, with the status it gives
      each of its three parts. */
  function PerformanceResultsOf(stats: ImageStats, css: CssOptimization, issues: seq<LargeFile>): PerformanceResults {
    PerformanceResults(stats, if stats.optimizedFormats > 0 then Pass else Warn,
                       css, if css.Any() then Pass else Warn,
                       issues, if issues == [] then Pass else Warn)
  }

  function PerformanceTests(fs: FileSystem, listing: Listing): PerformanceResults {
    PerformanceResultsOf(ImageStatsOf(fs, DirGlob(fs, listing, ImagesDir, "")), CssOptimizationOf(fs),
                         LargeSassFiles(fs, DirGlob(fs, listing, SassDir, ".scss")))
  }

  /** The verdict `test_page_performance` returns. */
  predicate PerformancePasses(r: PerformanceResults) {
    r.issues == [] && r.css.Any()
  }

  /** The three performance checks in the order `test_page_performance`
      runs them: the images, the CSS settings, then the stylesheet sizes. */
  method PagePerformance(fs: FileSystem, listing: Listing) returns (res: PerformanceResults)
    ensures res == PerformanceTests(fs, listing)
  {
    var stats := CountImages(fs, DirGlob(fs, listing, ImagesDir, ""));
    var css := CheckCssOptimization(fs);
    var issues := FindLargeSass(fs, DirGlob(fs, listing, SassDir, ".scss"));
    res := PerformanceResultsOf(stats, css, issues);
  }

  predicate NoLargeSass(fs: FileSystem, names: seq<string>) {
    forall i :: 0 <= i < |names| ==> !LargeSass(fs, names[i])
  }

  /** The readable configuration asks for compressed Sass or HTML, or for
      Sass without source maps. */
  predicate ConfigOptimizes(fs: FileSystem) {
    fs.Exists(ConfigFile) && ConfigFile in fs.text &&
    (Contains(fs.text[ConfigFile], "style: compressed") ||
     Contains(fs.text[ConfigFile], "compress_html:") ||
     (Contains(fs.text[ConfigFile], "sass:") && Contains(fs.text[ConfigFile], "sourcemap: never")))
  }

  /** The page performance test passes exactly when no stylesheet is above
      50 KB and the configuration optimizes the assets; the images, whatever
      they are, never decide it. */
  lemma PerformancePassIff(fs: FileSystem, stats: ImageStats, sassNames: seq<string>)
    ensures PerformancePasses(PerformanceResultsOf(stats, CssOptimizationOf(fs), LargeSassFiles(fs, sassNames))) <==>
            NoLargeSass(fs, sassNames) && ConfigOptimizes(fs)
  {
    LargeSassEmptyIff(fs, sassNames);
    CssOptimizationIff(fs);
  }

  lemma CssOptimizationIff(fs: FileSystem)
    ensures CssOptimizationOf(fs).Any() <==> ConfigOptimizes(fs)
  {
  }
}
