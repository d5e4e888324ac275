/** The mobile part of the performance and SEO test: the responsive features
    of the templates and stylesheets, and the mobile optimizations (modern
    image formats and lazy loading). */
module Mobile {
  import opened Text
  import opened Site
  import opened Seqs
  import opened Listings
  import opened Performance
  import opened Seo

  // ----- responsive design -----

  datatype ResponsiveFeatures = ResponsiveFeatures(
    viewportMeta: bool, mediaQueries: nat, flexibleImages: bool,
    touchFriendly: bool, mobileNavigation: bool)
  {
    /** The numerator of the responsive score, which is this over five. */
    function Points(): (n: nat)
      ensures n <= 5
    {
      Indicator(viewportMeta) + Indicator(mediaQueries > 0) + Indicator(flexibleImages) +
      Indicator(touchFriendly) + Indicator(mobileNavigation)
    }
  }

  predicate Viewport(c: string) {
    Contains(c, "name=\"viewport\"")
  }

  predicate MobileNavigation(c: string) {
    Contains(Lower(c), "mobile") || Contains(Lower(c), "hamburger")
  }

  /** `len(re.findall(r'@media', content))`. */
  function MediaQueries(c: string): nat {
    Count(c, "@media")
  }

  predicate FlexibleImages(c: string) {
    Contains(c, "max-width: 100%") || Contains(c, "width: 100%") || Contains(c, "height: auto")
  }

  predicate TouchFriendly(c: string) {
    Contains(c, "touch-action") || Contains(c, "min-height: 44px") || Contains(c, "min-width: 44px")
  }

  predicate HasMediaQuery(c: string) {
    Contains(c, "@media")
  }

  function ResponsiveOf(fs: FileSystem, listing: Listing): ResponsiveFeatures {
    var sass := DirGlob(fs, listing, SassDir, ".scss");
    ResponsiveFeatures(InTemplates(fs, listing, Viewport), Total(fs, SassDir, sass, MediaQueries),
                       FoundIn(fs, SassDir, sass, FlexibleImages), FoundIn(fs, SassDir, sass, TouchFriendly),
                       InTemplates(fs, listing, MobileNavigation))
  }

  predicate ResponsivePasses(f: ResponsiveFeatures) {
    f.viewportMeta && f.mediaQueries > 0
  }

  /** The media-query total is positive exactly when some readable
      stylesheet contains `@media`. */
  lemma MediaQueriesPositive(fs: FileSystem, names: seq<string>)
    ensures Total(fs, SassDir, names, MediaQueries) > 0 <==> FoundIn(fs, SassDir, names, HasMediaQuery)
  {
    TotalPositive(fs, SassDir, names, MediaQueries);
    forall i | 0 <= i < |names|
      ensures Amount(fs, SassDir, names[i], MediaQueries) > 0 <==> FileHas(fs, SassDir, names[i], HasMediaQuery)
    {
      match ContentOf(fs, SassDir, names[i])
      case None =>
      case Some(c) =>
        assert Amount(fs, SassDir, names[i], MediaQueries) == CountFrom(c, "@media", 0);
    }
  }

  /** The responsive check passes exactly when some readable layout or
      include declares the viewport and some readable stylesheet holds a
      media query. */
  lemma ResponsivePassIff(fs: FileSystem, listing: Listing)
    ensures ResponsivePasses(ResponsiveOf(fs, listing)) <==>
            InTemplates(fs, listing, Viewport) &&
            FoundIn(fs, SassDir, DirGlob(fs, listing, SassDir, ".scss"), HasMediaQuery)
  {
    MediaQueriesPositive(fs, DirGlob(fs, listing, SassDir, ".scss"));
  }

  /** The two template flags after the readable files `names` of `dir`. */
  method ScanTemplates(viewport0: bool, navigation0: bool, fs: FileSystem, dir: string, names: seq<string>)
    returns (viewport: bool, navigation: bool)
    ensures viewport == (viewport0 || FoundIn(fs, dir, names, Viewport))
    ensures navigation == (navigation0 || FoundIn(fs, dir, names, MobileNavigation))
  {
    viewport, navigation := viewport0, navigation0;
    for i := 0 to |names|
      invariant viewport == (viewport0 || FoundIn(fs, dir, names[..i], Viewport))
      invariant navigation == (navigation0 || FoundIn(fs, dir, names[..i], MobileNavigation))
    {
      FoundInStep(fs, dir, names, i, Viewport);
      FoundInStep(fs, dir, names, i, MobileNavigation);
      var content := ContentOf(fs, dir, names[i]);
      if content.Some? {
        var c := content.value;
        if Contains(c, "name=\"viewport\"") {
          viewport := true;
        }
        var lower := Lower(c);
        if Contains(lower, "mobile") || Contains(lower, "hamburger") {
          navigation := true;
        }
      }
    }
    assert names[..|names|] == names;
  }

  /** The stylesheet part of the responsive features. */
  predicate SassScanned(mediaQueries: nat, flexible: bool, touch: bool, fs: FileSystem, names: seq<string>) {
    && mediaQueries == Total(fs, SassDir, names, MediaQueries)
    && flexible == FoundIn(fs, SassDir, names, FlexibleImages)
    && touch == FoundIn(fs, SassDir, names, TouchFriendly)
  }

  lemma SassStep(mediaQueries: nat, flexible: bool, touch: bool, fs: FileSystem, names: seq<string>, i: nat)
    requires i < |names| && SassScanned(mediaQueries, flexible, touch, fs, names[..i])
    ensures match ContentOf(fs, SassDir, names[i])
            case Some(c) =>
              SassScanned(mediaQueries + MediaQueries(c), flexible || FlexibleImages(c), touch || TouchFriendly(c),
                          fs, names[..i + 1])
            case None => SassScanned(mediaQueries, flexible, touch, fs, names[..i + 1])
  {
    TotalStep(fs, SassDir, names, i, MediaQueries);
    FoundInStep(fs, SassDir, names, i, FlexibleImages);
    FoundInStep(fs, SassDir, names, i, TouchFriendly);
  }

  method ScanSass(fs: FileSystem, names: seq<string>) returns (mediaQueries: nat, flexible: bool, touch: bool)
    ensures SassScanned(mediaQueries, flexible, touch, fs, names)
  {
    mediaQueries, flexible, touch := 0, false, false;
    for i := 0 to |names|
      invariant SassScanned(mediaQueries, flexible, touch, fs, names[..i])
    {
      SassStep(mediaQueries, flexible, touch, fs, names, i);
      var content := ContentOf(fs, SassDir, names[i]);
      if content.Some? {
        var c := content.value;
        mediaQueries := mediaQueries + Count(c, "@media");
        if Contains(c, "max-width: 100%") || Contains(c, "width: 100%") || Contains(c, "height: auto") {
          flexible := true;
        }
        if Contains(c, "touch-action") || Contains(c, "min-height: 44px") || Contains(c, "min-width: 44px") {
          touch := true;
        }
      }
    }
    assert names[..|names|] == names;
  }

  // ----- mobile optimizations -----

  datatype MobileOptimizations = MobileOptimizations(
    compressedImages: nat, lazyLoading: bool, criticalCss: bool, serviceWorker: bool)

  function ModernTest(): string -> bool {
    (name: string) => IsOptimized(name)
  }

  predicate LazyLoading(c: string) {
    Contains(c, "loading=\"lazy\"")
  }

  /** Every entry of the images directory with a modern suffix counts,
      whether or not it is a regular file; critical CSS and a service worker
      are never detected. */
  function OptimizationsOf(fs: FileSystem, listing: Listing): MobileOptimizations {
    MobileOptimizations(CountIf(DirGlob(fs, listing, ImagesDir, ""), ModernTest()),
                        InTemplates(fs, listing, LazyLoading), false, false)
  }

  /** The mobile count of modern images is at least the performance count,
      which also demands a regular file with an image suffix. */
  lemma CompressedCoversOptimized(fs: FileSystem, names: seq<string>)
    ensures ImageStatsOf(fs, names).optimizedFormats <= CountIf(names, ModernTest())
  {
    CountIfMono(names, OptimizedImageTest(fs), ModernTest());
  }

  method CountModernImages(names: seq<string>) returns (n: nat)
    ensures n == CountIf(names, ModernTest())
  {
    n := 0;
    for i := 0 to |names|
      invariant n == CountIf(names[..i], ModernTest())
    {
      assert names[..i + 1] == names[..i] + [names[i]];
      CountIfSnoc(names[..i], names[i], ModernTest());
      if IsOptimized(names[i]) {
        n := n + 1;
      }
    }
    assert names[..|names|] == names;
  }

  method ScanLazyLoading(found0: bool, fs: FileSystem, dir: string, names: seq<string>) returns (found: bool)
    ensures found == (found0 || FoundIn(fs, dir, names, LazyLoading))
  {
    found := found0;
    for i := 0 to |names|
      invariant found == (found0 || FoundIn(fs, dir, names[..i], LazyLoading))
    {
      FoundInStep(fs, dir, names, i, LazyLoading);
      var content := ContentOf(fs, dir, names[i]);
      if content.Some? && Contains(content.value, "loading=\"lazy\"") {
        found := true;
      }
    }
    assert names[..|names|] == names;
  }

  // ----- the mobile test -----

  datatype MobileResults = MobileResults(
    responsive: ResponsiveFeatures, responsiveStatus: Status,
    optimizations: MobileOptimizations, optimizationsStatus: Status)

  function MobileResultsOf(responsive: ResponsiveFeatures, optimizations: MobileOptimizations): MobileResults {
    MobileResults(responsive, if ResponsivePasses(responsive) then Pass else Warn,
                  optimizations, if optimizations.compressedImages > 0 then Pass else Warn)
  }

  function MobileTests(fs: FileSystem, listing: Listing): MobileResults {
    MobileResultsOf(ResponsiveOf(fs, listing), OptimizationsOf(fs, listing))
  }

  /** The verdict `test_mobile_performance` returns: a responsive score
      `points / 5` above 0.6, which for a whole number of points out of five
      means at least four, and at least one modern image. */
  predicate MobilePasses(r: MobileResults) {
    r.responsive.Points() >= 4 && r.optimizations.compressedImages > 0
  }

  /** The two mobile checks in the order `test_mobile_performance` runs
      them: the responsive features, then the optimizations. */
  method MobileOptimization(fs: FileSystem, listing: Listing) returns (res: MobileResults)
    ensures res == MobileTests(fs, listing)
  {
    var layouts, includes := DirGlob(fs, listing, LayoutsDir, ".html"), DirGlob(fs, listing, IncludesDir, ".html");
    var viewport, navigation := ScanTemplates(false, false, fs, LayoutsDir, layouts);
    viewport, navigation := ScanTemplates(viewport, navigation, fs, IncludesDir, includes);
    var mediaQueries, flexible, touch := ScanSass(fs, DirGlob(fs, listing, SassDir, ".scss"));
    var responsive := ResponsiveFeatures(viewport, mediaQueries, flexible, touch, navigation);
    var compressed := CountModernImages(DirGlob(fs, listing, ImagesDir, ""));
    var lazy := ScanLazyLoading(false, fs, LayoutsDir, layouts);
    lazy := ScanLazyLoading(lazy, fs, IncludesDir, includes);
    res := MobileResultsOf(responsive, MobileOptimizations(compressed, lazy, false, false));
  }

  /** The verdict needs the viewport or a media query, but not both: the test
      can pass while its responsive check warns. */
  lemma MobileVerdict(responsive: ResponsiveFeatures, optimizations: MobileOptimizations)
    ensures MobilePasses(MobileResultsOf(responsive, optimizations)) ==>
            (responsive.viewportMeta || responsive.mediaQueries > 0) &&
            MobileResultsOf(responsive, optimizations).optimizationsStatus == Pass
    ensures var f := ResponsiveFeatures(false, 1, true, true, true);
            optimizations.compressedImages > 0 ==>
            MobilePasses(MobileResultsOf(f, optimizations)) && MobileResultsOf(f, optimizations).responsiveStatus == Warn
  {
  }
}
