/** The browser compatibility test: four test methods that scan the Sass
    sources, the layouts and includes, the configuration and the images
    directory, store a result record each and return a verdict, and a report
    that folds three of the records into an overall status. A file that
    cannot be read is skipped (the scan catches the exception). */
module Browser {
  import opened Text
  import opened Site
  import opened Seqs
  import Paths
  import opened Listings

  const SassDir := "_sass"
  const LayoutsDir := "_layouts"
  const IncludesDir := "_includes"
  const ImagesDir := "images"
  const ConfigFile := "_config.yml"

  // ----- responsive design -----

  const FlexibleUnits: seq<string> := ["rem", "em", "%", "vw", "vh"]
  const ModernLayout: seq<string> := ["display: grid", "display: flex", "grid-template", "flex-"]

  predicate HasResponsiveFeature(content: string) {
    Contains(content, "@media") || ContainsAny(content, FlexibleUnits) || ContainsAny(content, ModernLayout)
  }

  /** The entries one stylesheet contributes: one per kind of feature it uses. */
  function ResponsiveEntries(name: string, content: string): (r: seq<string>)
    ensures |r| <= 3
    ensures r == [] <==> !HasResponsiveFeature(content)
  {
    (if Contains(content, "@media") then ["Media queries in " + name] else []) +
    (if ContainsAny(content, FlexibleUnits) then ["Flexible units in " + name] else []) +
    (if ContainsAny(content, ModernLayout) then ["Modern layout in " + name] else [])
  }

  function ResponsiveOf(fs: FileSystem): string -> seq<string> {
    (name: string) =>
      var c := ContentOf(fs, SassDir, name);
      if c.Some? then ResponsiveEntries(name, c.value) else []
  }

  function ResponsiveFeatures(fs: FileSystem, names: seq<string>): seq<string> {
    FlatMap(names, ResponsiveOf(fs))
  }

  /** A readable stylesheet with at least one responsive feature. */
  predicate ResponsiveFile(fs: FileSystem, name: string) {
    ContentOf(fs, SassDir, name).Some? && HasResponsiveFeature(ContentOf(fs, SassDir, name).value)
  }

  /** Each stylesheet contributes at most three entries. */
  lemma {:induction false} ResponsiveFeaturesBound(fs: FileSystem, names: seq<string>)
    ensures |ResponsiveFeatures(fs, names)| <= 3 * |names|
  {
    if names != [] {
      ResponsiveFeaturesBound(fs, names[..|names| - 1]);
    }
  }

  /** The feature list is empty exactly when no readable stylesheet uses a
      responsive feature. */
  lemma ResponsiveFeaturesEmptyIff(fs: FileSystem, names: seq<string>)
    ensures ResponsiveFeatures(fs, names) == [] <==> forall i :: 0 <= i < |names| ==> !ResponsiveFile(fs, names[i])
  {
    FlatMapEmptyIff(names, ResponsiveOf(fs));
    forall i | 0 <= i < |names| ensures ResponsiveOf(fs)(names[i]) == [] <==> !ResponsiveFile(fs, names[i]) {
    }
  }

  // ----- the viewport meta tag -----

  const ViewportMarker := "name=\"viewport\""

  predicate DeclaresViewport(fs: FileSystem, dir: string, name: string) {
    ContentOf(fs, dir, name).Some? && Contains(ContentOf(fs, dir, name).value, ViewportMarker)
  }

  predicate AnyViewport(fs: FileSystem, dir: string, names: seq<string>) {
    exists i :: 0 <= i < |names| && DeclaresViewport(fs, dir, names[i])
  }

  /** Some layout, or else some include, declares the viewport. */
  predicate ViewportFound(fs: FileSystem, listing: Listing) {
    AnyViewport(fs, LayoutsDir, DirGlob(fs, listing, LayoutsDir, ".html")) ||
    AnyViewport(fs, IncludesDir, DirGlob(fs, listing, IncludesDir, ".html"))
  }

  /** The search loop with its `break`: `scanned` is how many files it opened,
      so it stops right after the first file that declares the viewport. */
  method SearchViewport(fs: FileSystem, dir: string, names: seq<string>) returns (found: bool, scanned: nat)
    ensures found == AnyViewport(fs, dir, names)
    ensures scanned <= |names|
    ensures found ==> 0 < scanned && DeclaresViewport(fs, dir, names[scanned - 1]) &&
                      !AnyViewport(fs, dir, names[..scanned - 1])
    ensures !found ==> scanned == |names|
  {
    found := false;
    scanned := 0;
    while scanned < |names|
      invariant scanned <= |names|
      invariant !AnyViewport(fs, dir, names[..scanned])
    {
      var content := ContentOf(fs, dir, names[scanned]);
      scanned := scanned + 1;
      if content.Some? && Contains(content.value, ViewportMarker) {
        found := true;
        assert names[..scanned - 1][..] == names[..scanned - 1];
        assert forall i :: 0 <= i < scanned - 1 ==> names[..scanned - 1][i] == names[..scanned][i];
        return;
      }
      assert forall i :: 0 <= i < scanned - 1 ==> names[..scanned][i] == names[..scanned - 1][i];
    }
    assert names[..scanned] == names;
  }

  /** The layouts first; the includes only when no layout declared the viewport. */
  method FindViewport(fs: FileSystem, listing: Listing) returns (found: bool, includesScanned: nat)
    ensures found == ViewportFound(fs, listing)
    ensures AnyViewport(fs, LayoutsDir, DirGlob(fs, listing, LayoutsDir, ".html")) ==> includesScanned == 0
  {
    found := false;
    includesScanned := 0;
    if fs.Exists(LayoutsDir) {
      var layoutsScanned;
      found, layoutsScanned := SearchViewport(fs, LayoutsDir, DirGlob(fs, listing, LayoutsDir, ".html"));
    }
    assert !fs.Exists(LayoutsDir) ==> !AnyViewport(fs, LayoutsDir, DirGlob(fs, listing, LayoutsDir, ".html"));
    if fs.Exists(IncludesDir) && !found {
      found, includesScanned := SearchViewport(fs, IncludesDir, DirGlob(fs, listing, IncludesDir, ".html"));
    }
  }

  datatype ResponsiveResults = ResponsiveResults(
    features: seq<string>, count: nat, featuresStatus: Status,
    viewportFound: bool, viewportStatus: Status)

  function ResponsiveTests(fs: FileSystem, listing: Listing): ResponsiveResults {
    var features := ResponsiveFeatures(fs, DirGlob(fs, listing, SassDir, ".scss"));
    var viewport := ViewportFound(fs, listing);
    ResponsiveResults(features, |features|, if features != [] then Pass else Warn,
                      viewport, if viewport then Pass else Fail)
  }

  predicate ResponsivePasses(r: ResponsiveResults) {
    r.count > 0 && r.viewportFound
  }

  method CollectResponsiveFeatures(fs: FileSystem, names: seq<string>) returns (features: seq<string>)
    ensures features == ResponsiveFeatures(fs, names)
  {
    features := [];
    for i := 0 to |names|
      invariant features == ResponsiveFeatures(fs, names[..i])
    {
      var name := names[i];
      ResponsiveStep(fs, names, i);
      var content := ContentOf(fs, SassDir, name);
      if content.Some? {
        features := AppendResponsiveEntries(features, name, content.value);
      }
    }
    assert names[..|names|] == names;
  }

  /** The three checks on one stylesheet, each appending its entry. */
  method AppendResponsiveEntries(features: seq<string>, name: string, content: string) returns (r: seq<string>)
    ensures r == features + ResponsiveEntries(name, content)
  {
    r := features;
    if Contains(content, "@media") {
      r := r + ["Media queries in " + name];
    }
    if ContainsAny(content, FlexibleUnits) {
      r := r + ["Flexible units in " + name];
    }
    if ContainsAny(content, ModernLayout) {
      r := r + ["Modern layout in " + name];
    }
  }

  lemma ResponsiveStep(fs: FileSystem, names: seq<string>, i: nat)
    requires i < |names|
    ensures ResponsiveFeatures(fs, names[..i + 1]) == ResponsiveFeatures(fs, names[..i]) + ResponsiveOf(fs)(names[i])
  {
    assert names[..i + 1] == names[..i] + [names[i]];
    FlatMapSnoc(names[..i], names[i], ResponsiveOf(fs));
  }

  // ----- CSS features -----

  datatype CssCategory = ModernSelectors | Animations | Transforms | Gradients | Flexbox | Grid
  {
    /** The substrings whose presence puts a stylesheet in the category. */
    function Needles(): seq<string> {
      match this
      case ModernSelectors => [":hover", ":focus", ":active", "::before", "::after"]
      case Animations => ["animation", "transition", "@keyframes"]
      case Transforms => ["transform"]
      case Gradients => ["linear-gradient", "radial-gradient"]
      case Flexbox => ["display: flex", "flex-", "justify-content", "align-items"]
      case Grid => ["display: grid", "grid-template", "grid-gap"]
    }
  }

  const Categories: seq<CssCategory> := [ModernSelectors, Animations, Transforms, Gradients, Flexbox, Grid]

  predicate InCategory(fs: FileSystem, name: string, cat: CssCategory) {
    ContentOf(fs, SassDir, name).Some? && ContainsAny(ContentOf(fs, SassDir, name).value, cat.Needles())
  }

  function CategoryTest(fs: FileSystem, cat: CssCategory): string -> bool {
    (name: string) => InCategory(fs, name, cat)
  }

  /** The stylesheets of a category, in listing order. */
  function CategoryFiles(fs: FileSystem, names: seq<string>, cat: CssCategory): seq<string> {
    Filter(names, CategoryTest(fs, cat))
  }

  /** The total number of category entries over the categories `cats`. */
  function FeatureCount(fs: FileSystem, names: seq<string>, cats: seq<CssCategory>): nat {
    if cats == [] then 0
    else FeatureCount(fs, names, cats[..|cats| - 1]) + |CategoryFiles(fs, names, cats[|cats| - 1])|
  }

  const VendorPrefixes: seq<string> := ["-webkit-", "-moz-", "-ms-", "-o-"]

  function VendorTest(fs: FileSystem): string -> bool {
    (name: string) =>
      ContentOf(fs, SassDir, name).Some? && ContainsAny(ContentOf(fs, SassDir, name).value, VendorPrefixes)
  }

  datatype CssResults = CssResults(
    features: map<CssCategory, seq<string>>,
    vendorPrefixes: seq<string>, vendorCount: nat, vendorStatus: Status,
    totalFeatures: nat, status: Status)

  function FeatureMap(fs: FileSystem, names: seq<string>): map<CssCategory, seq<string>> {
    map[ModernSelectors := CategoryFiles(fs, names, ModernSelectors),
        Animations := CategoryFiles(fs, names, Animations),
        Transforms := CategoryFiles(fs, names, Transforms),
        Gradients := CategoryFiles(fs, names, Gradients),
        Flexbox := CategoryFiles(fs, names, Flexbox),
        Grid := CategoryFiles(fs, names, Grid)]
  }

  function CssTests(fs: FileSystem, listing: Listing): CssResults {
    var names := DirGlob(fs, listing, SassDir, ".scss");
    var vendor := Filter(names, VendorTest(fs));
    var total := FeatureCount(fs, names, Categories);
    CssResults(FeatureMap(fs, names), vendor, |vendor|, Info, total, if total > 5 then Pass else Warn)
  }

  predicate CssPasses(r: CssResults) {
    r.totalFeatures > 5
  }

  /** A stylesheet appears at most once in a category: the listing of a
      directory never names an entry twice. */
  lemma CategoryFilesDistinct(fs: FileSystem, names: seq<string>, cat: CssCategory)
    requires Distinct(names)
    ensures Distinct(CategoryFiles(fs, names, cat))
  {
    FilterDistinct(names, CategoryTest(fs, cat));
  }

  /** Each stylesheet adds at most one entry per category. */
  lemma {:induction false} FeatureCountBound(fs: FileSystem, names: seq<string>, cats: seq<CssCategory>)
    ensures FeatureCount(fs, names, cats) <= |cats| * |names|
  {
    if cats != [] {
      FeatureCountBound(fs, names, cats[..|cats| - 1]);
      assert |cats| * |names| == (|cats| - 1) * |names| + |names|;
    }
  }

  /** The vendor-prefix count never decides the verdict: the status is a
      note. The verdict itself is the source's threshold on the feature
      count; what a PASS says about the stylesheets is `CssPassUsesFeatures`. */
  lemma CssVerdict(fs: FileSystem, listing: Listing)
    ensures CssTests(fs, listing).vendorStatus == Info
    ensures CssTests(fs, listing).totalFeatures <= 6 * |DirGlob(fs, listing, SassDir, ".scss")|
    ensures CssTests(fs, listing).status == Pass <==> CssPasses(CssTests(fs, listing))
  {
    FeatureCountBound(fs, DirGlob(fs, listing, SassDir, ".scss"), Categories);
  }

  /** With no stylesheet in any of the categories `cats`, they count nothing. */
  lemma {:induction false} FeatureCountZero(fs: FileSystem, names: seq<string>, cats: seq<CssCategory>)
    requires forall k :: 0 <= k < |cats| ==> CategoryFiles(fs, names, cats[k]) == []
    ensures FeatureCount(fs, names, cats) == 0
  {
    if cats != [] {
      FeatureCountZero(fs, names, cats[..|cats| - 1]);
    }
  }

  /** A PASS needs at least one stylesheet that uses a modern feature, and
      one stylesheet alone passes only by using all six categories. */
  lemma CssPassUsesFeatures(fs: FileSystem, listing: Listing)
    ensures var names := DirGlob(fs, listing, SassDir, ".scss");
            CssTests(fs, listing).status == Pass ==>
              exists i, k :: 0 <= i < |names| && 0 <= k < |Categories| && InCategory(fs, names[i], Categories[k])
    ensures var names := DirGlob(fs, listing, SassDir, ".scss");
            CssTests(fs, listing).status == Pass && |names| == 1 ==> CssTests(fs, listing).totalFeatures == 6
  {
    var names := DirGlob(fs, listing, SassDir, ".scss");
    FeatureCountBound(fs, names, Categories);
    if !exists i, k :: 0 <= i < |names| && 0 <= k < |Categories| && InCategory(fs, names[i], Categories[k]) {
      forall k | 0 <= k < |Categories| ensures CategoryFiles(fs, names, Categories[k]) == [] {
        FilterEmptyIff(names, CategoryTest(fs, Categories[k]));
      }
      FeatureCountZero(fs, names, Categories);
    }
  }

  /** The loop over the stylesheets, appending to every category it matches. */
  method CollectCssFeatures(fs: FileSystem, names: seq<string>) returns (features: map<CssCategory, seq<string>>)
    ensures features == FeatureMap(fs, names)
  {
    var selectors, animations, transforms, gradients, flexbox, grid := [], [], [], [], [], [];
    for i := 0 to |names|
      invariant selectors == CategoryFiles(fs, names[..i], ModernSelectors)
      invariant animations == CategoryFiles(fs, names[..i], Animations)
      invariant transforms == CategoryFiles(fs, names[..i], Transforms)
      invariant gradients == CategoryFiles(fs, names[..i], Gradients)
      invariant flexbox == CategoryFiles(fs, names[..i], Flexbox)
      invariant grid == CategoryFiles(fs, names[..i], Grid)
    {
      var name := names[i];
      assert names[..i + 1] == names[..i] + [name];
      CategorySnoc(fs, names[..i], name);
      var content := ContentOf(fs, SassDir, name);
      if content.Some? {
        var c := content.value;
        if ContainsAny(c, ModernSelectors.Needles()) { selectors := selectors + [name]; }
        if ContainsAny(c, Animations.Needles()) { animations := animations + [name]; }
        if ContainsAny(c, Transforms.Needles()) { transforms := transforms + [name]; }
        if ContainsAny(c, Gradients.Needles()) { gradients := gradients + [name]; }
        if ContainsAny(c, Flexbox.Needles()) { flexbox := flexbox + [name]; }
        if ContainsAny(c, Grid.Needles()) { grid := grid + [name]; }
      }
    }
    assert names[..|names|] == names;
    features := map[ModernSelectors := selectors, Animations := animations, Transforms := transforms,
                    Gradients := gradients, Flexbox := flexbox, Grid := grid];
  }

  lemma CategorySnoc(fs: FileSystem, names: seq<string>, name: string)
    ensures forall cat :: CategoryFiles(fs, names + [name], cat) ==
              CategoryFiles(fs, names, cat) + (if InCategory(fs, name, cat) then [name] else [])
  {
    forall cat ensures CategoryFiles(fs, names + [name], cat) ==
                       CategoryFiles(fs, names, cat) + (if InCategory(fs, name, cat) then [name] else []) {
      FilterSnoc(names, name, CategoryTest(fs, cat));
    }
  }

  method CollectVendorPrefixes(fs: FileSystem, names: seq<string>) returns (files: seq<string>)
    ensures files == Filter(names, VendorTest(fs))
  {
    files := [];
    for i := 0 to |names|
      invariant files == Filter(names[..i], VendorTest(fs))
    {
      var name := names[i];
      assert names[..i + 1] == names[..i] + [name];
      FilterSnoc(names[..i], name, VendorTest(fs));
      var content := ContentOf(fs, SassDir, name);
      if content.Some? && ContainsAny(content.value, VendorPrefixes) {
        files := files + [name];
      }
    }
    assert names[..|names|] == names;
  }

  /** `sum(len(features) for features in css_features.values())`. */
  method CountFeatures(fs: FileSystem, names: seq<string>, features: map<CssCategory, seq<string>>)
    returns (total: nat)
    requires features == FeatureMap(fs, names)
    ensures total == FeatureCount(fs, names, Categories)
  {
    total := 0;
    for k := 0 to |Categories|
      invariant total == FeatureCount(fs, names, Categories[..k])
    {
      FeatureCountStep(fs, names, k);
      FeatureMapAt(fs, names, Categories[k]);
      total := total + |features[Categories[k]]|;
    }
    assert Categories[..|Categories|] == Categories;
  }

  lemma FeatureCountStep(fs: FileSystem, names: seq<string>, k: nat)
    requires k < |Categories|
    ensures FeatureCount(fs, names, Categories[..k + 1]) ==
            FeatureCount(fs, names, Categories[..k]) + |CategoryFiles(fs, names, Categories[k])|
  {
    assert Categories[..k + 1][..k] == Categories[..k];
  }

  lemma FeatureMapAt(fs: FileSystem, names: seq<string>, cat: CssCategory)
    ensures cat in FeatureMap(fs, names) && FeatureMap(fs, names)[cat] == CategoryFiles(fs, names, cat)
  {
  }

  // ----- accessibility -----

  const SemanticTags: seq<string> := ["<header>", "<nav>", "<main>", "<article>", "<section>", "<aside>", "<footer>"]
  const AccessibilityAttributes: seq<string> := ["alt=", "aria-", "role="]

  function TagTest(content: string): string -> bool {
    (tag: string) => Contains(content, tag)
  }

  function TagEntry(name: string): string -> string {
    (tag: string) => tag + " in " + name
  }

  /** One entry per semantic tag the file holds, in tag order. */
  function SemanticEntries(name: string, content: string): seq<string> {
    Map(Filter(SemanticTags, TagTest(content)), TagEntry(name))
  }

  /** One entry per kind of accessibility attribute the file holds. */
  function AttributeEntries(name: string, content: string): (r: seq<string>)
    ensures |r| <= 3
  {
    (if Contains(content, "alt=") then ["Alt attributes in " + name] else []) +
    (if Contains(content, "aria-") then ["ARIA attributes in " + name] else []) +
    (if Contains(content, "role=") then ["Role attributes in " + name] else [])
  }

  function SemanticOf(fs: FileSystem, dir: string): string -> seq<string> {
    (name: string) =>
      var c := ContentOf(fs, dir, name);
      if c.Some? then SemanticEntries(name, c.value) else []
  }

  function AttributesOf(fs: FileSystem, dir: string): string -> seq<string> {
    (name: string) =>
      var c := ContentOf(fs, dir, name);
      if c.Some? then AttributeEntries(name, c.value) else []
  }

  datatype AccessibilityResults = AccessibilityResults(
    semantic: seq<string>, semanticStatus: Status,
    attributes: seq<string>, attributesStatus: Status)

  function AccessibilityTests(fs: FileSystem, listing: Listing): AccessibilityResults {
    var layouts := DirGlob(fs, listing, LayoutsDir, ".html");
    var includes := DirGlob(fs, listing, IncludesDir, ".html");
    var semantic := FlatMap(layouts, SemanticOf(fs, LayoutsDir)) + FlatMap(includes, SemanticOf(fs, IncludesDir));
    var attributes := FlatMap(layouts, AttributesOf(fs, LayoutsDir)) + FlatMap(includes, AttributesOf(fs, IncludesDir));
    AccessibilityResults(semantic, if semantic != [] then Pass else Warn,
                         attributes, if attributes != [] then Pass else Warn)
  }

  predicate AccessibilityPasses(r: AccessibilityResults) {
    |r.semantic| > 0 || |r.attributes| > 0
  }

  /** A readable file holding a semantic tag or an accessibility attribute. */
  predicate AccessibleFile(fs: FileSystem, dir: string, name: string) {
    ContentOf(fs, dir, name).Some? &&
    (ContainsAny(ContentOf(fs, dir, name).value, SemanticTags) ||
     ContainsAny(ContentOf(fs, dir, name).value, AccessibilityAttributes))
  }

  predicate AnyAccessible(fs: FileSystem, dir: string, names: seq<string>) {
    exists i :: 0 <= i < |names| && AccessibleFile(fs, dir, names[i])
  }

  lemma AttributeEntriesEmptyIff(name: string, content: string)
    ensures AttributeEntries(name, content) == [] <==> !ContainsAny(content, AccessibilityAttributes)
  {
    ContainsAnyOfThree(content, "alt=", "aria-", "role=");
  }

  lemma SemanticEntriesEmptyIff(name: string, content: string)
    ensures SemanticEntries(name, content) == [] <==> !ContainsAny(content, SemanticTags)
  {
    FilterEmptyIff(SemanticTags, TagTest(content));
  }

  /** A directory's files add no entry to either list exactly when none of
      them is accessible. */
  lemma DirAccessibility(fs: FileSystem, dir: string, names: seq<string>)
    ensures (FlatMap(names, SemanticOf(fs, dir)) == [] && FlatMap(names, AttributesOf(fs, dir)) == []) <==>
            !AnyAccessible(fs, dir, names)
  {
    FlatMapEmptyIff(names, SemanticOf(fs, dir));
    FlatMapEmptyIff(names, AttributesOf(fs, dir));
    forall i | 0 <= i < |names|
      ensures (SemanticOf(fs, dir)(names[i]) == [] && AttributesOf(fs, dir)(names[i]) == []) <==>
              !AccessibleFile(fs, dir, names[i])
    {
      var c := ContentOf(fs, dir, names[i]);
      if c.Some? {
        SemanticEntriesEmptyIff(names[i], c.value);
        AttributeEntriesEmptyIff(names[i], c.value);
      }
    }
  }

  /** The accessibility test passes exactly when some readable layout or
      include holds a semantic tag or an accessibility attribute. */
  lemma AccessibilityIff(fs: FileSystem, listing: Listing)
    ensures AccessibilityPasses(AccessibilityTests(fs, listing)) <==>
            AnyAccessible(fs, LayoutsDir, DirGlob(fs, listing, LayoutsDir, ".html")) ||
            AnyAccessible(fs, IncludesDir, DirGlob(fs, listing, IncludesDir, ".html"))
  {
    DirAccessibility(fs, LayoutsDir, DirGlob(fs, listing, LayoutsDir, ".html"));
    DirAccessibility(fs, IncludesDir, DirGlob(fs, listing, IncludesDir, ".html"));
  }

  method CollectTags(name: string, content: string) returns (entries: seq<string>)
    ensures entries == SemanticEntries(name, content)
  {
    entries := [];
    for t := 0 to |SemanticTags|
      invariant entries == Map(Filter(SemanticTags[..t], TagTest(content)), TagEntry(name))
    {
      var tag := SemanticTags[t];
      assert SemanticTags[..t + 1] == SemanticTags[..t] + [tag];
      FilterSnoc(SemanticTags[..t], tag, TagTest(content));
      var kept := Filter(SemanticTags[..t], TagTest(content));
      if Contains(content, tag) {
        MapSnoc(kept, tag, TagEntry(name));
        entries := entries + [tag + " in " + name];
      } else {
        assert kept + [] == kept;
      }
    }
    assert SemanticTags[..|SemanticTags|] == SemanticTags;
  }

  /** The scan of one directory's pages, appending to both lists. */
  method ScanAccessibility(fs: FileSystem, dir: string, names: seq<string>)
    returns (semantic: seq<string>, attributes: seq<string>)
    ensures semantic == FlatMap(names, SemanticOf(fs, dir))
    ensures attributes == FlatMap(names, AttributesOf(fs, dir))
  {
    semantic, attributes := [], [];
    for i := 0 to |names|
      invariant semantic == FlatMap(names[..i], SemanticOf(fs, dir))
      invariant attributes == FlatMap(names[..i], AttributesOf(fs, dir))
    {
      var name := names[i];
      AccessibilityStep(fs, dir, names, i);
      var content := ContentOf(fs, dir, name);
      if content.Some? {
        var tags := CollectTags(name, content.value);
        semantic := semantic + tags;
        attributes := AppendAttributeEntries(attributes, name, content.value);
      }
    }
    assert names[..|names|] == names;
  }

  /** The three attribute checks on one file, each appending its entry. */
  method AppendAttributeEntries(attributes: seq<string>, name: string, content: string) returns (r: seq<string>)
    ensures r == attributes + AttributeEntries(name, content)
  {
    r := attributes;
    if Contains(content, "alt=") {
      r := r + ["Alt attributes in " + name];
    }
    if Contains(content, "aria-") {
      r := r + ["ARIA attributes in " + name];
    }
    if Contains(content, "role=") {
      r := r + ["Role attributes in " + name];
    }
  }

  lemma AccessibilityStep(fs: FileSystem, dir: string, names: seq<string>, i: nat)
    requires i < |names|
    ensures FlatMap(names[..i + 1], SemanticOf(fs, dir)) == FlatMap(names[..i], SemanticOf(fs, dir)) + SemanticOf(fs, dir)(names[i])
    ensures FlatMap(names[..i + 1], AttributesOf(fs, dir)) == FlatMap(names[..i], AttributesOf(fs, dir)) + AttributesOf(fs, dir)(names[i])
  {
    assert names[..i + 1] == names[..i] + [names[i]];
    FlatMapSnoc(names[..i], names[i], SemanticOf(fs, dir));
    FlatMapSnoc(names[..i], names[i], AttributesOf(fs, dir));
  }

  // ----- performance -----

  function OptimizedTest(): string -> bool {
    (name: string) => IsOptimized(name)
  }

  /** The performance settings the configuration mentions; an unreadable
      configuration mentions none. */
  function PerformanceFeatures(fs: FileSystem): seq<string> {
    if !fs.Exists(ConfigFile) || ConfigFile !in fs.text then []
    else
      var c := fs.text[ConfigFile];
      (if Contains(c, "style: compressed") then ["SASS compression enabled"] else []) +
      (if Contains(c, "compress_html:") then ["HTML compression configured"] else []) +
      (if Contains(c, "sass:") then ["SASS configuration present"] else [])
  }

  datatype PerformanceResults = PerformanceResults(
    features: seq<string>, featuresStatus: Status,
    optimizedImages: seq<string>, imagesStatus: Status)

  function PerformanceTests(fs: FileSystem, listing: Listing): PerformanceResults {
    var features := PerformanceFeatures(fs);
    var images := if fs.Exists(ImagesDir) then Filter(listing(ImagesDir), OptimizedTest()) else [];
    PerformanceResults(features, if features != [] then Pass else Warn,
                       images, if images != [] then Pass else Info)
  }

  predicate PerformancePasses(r: PerformanceResults) {
    |r.features| > 0
  }

  /** The test passes exactly when the configuration can be read and
      mentions compression or Sass settings; images never matter. */
  lemma PerformanceIff(fs: FileSystem, listing: Listing)
    ensures PerformancePasses(PerformanceTests(fs, listing)) <==>
            fs.Exists(ConfigFile) && ConfigFile in fs.text &&
            ContainsAny(fs.text[ConfigFile], ["style: compressed", "compress_html:", "sass:"])
  {
    if fs.Exists(ConfigFile) && ConfigFile in fs.text {
      ContainsAnyOfThree(fs.text[ConfigFile], "style: compressed", "compress_html:", "sass:");
    }
  }

  method CollectOptimizedImages(names: seq<string>) returns (images: seq<string>)
    ensures images == Filter(names, OptimizedTest())
  {
    images := [];
    for i := 0 to |names|
      invariant images == Filter(names[..i], OptimizedTest())
    {
      var name := names[i];
      OptimizedStep(names, i);
      if IsOptimized(name) {
        images := images + [name];
      }
    }
    assert names[..|names|] == names;
  }

  method CollectPerformanceFeatures(fs: FileSystem) returns (features: seq<string>)
    ensures features == PerformanceFeatures(fs)
  {
    features := [];
    if fs.Exists(ConfigFile) && ConfigFile in fs.text {
      var content := fs.text[ConfigFile];
      if Contains(content, "style: compressed") {
        features := features + ["SASS compression enabled"];
      }
      if Contains(content, "compress_html:") {
        features := features + ["HTML compression configured"];
      }
      if Contains(content, "sass:") {
        features := features + ["SASS configuration present"];
      }
    }
  }

  lemma OptimizedStep(names: seq<string>, i: nat)
    requires i < |names|
    ensures Filter(names[..i + 1], OptimizedTest()) ==
            Filter(names[..i], OptimizedTest()) + if OptimizedTest()(names[i]) then [names[i]] else []
  {
    assert names[..i + 1] == names[..i] + [names[i]];
    FilterSnoc(names[..i], names[i], OptimizedTest());
  }

  // ----- the summary -----

  datatype CompatibilitySummary = CompatibilitySummary(
    responsiveDesign: bool, cssCompatibility: bool, accessibility: bool, performance: bool,
    overallStatus: Status)

  /** A test that has not run counts as not passed. */
  function SummaryOf(responsive: Option<ResponsiveResults>, css: Option<CssResults>,
                     access: Option<AccessibilityResults>, perf: Option<PerformanceResults>): CompatibilitySummary {
    var r := responsive.Some? && responsive.value.viewportStatus == Pass;
    var c := css.Some? && css.value.status == Pass;
    var a := access.Some? && (access.value.semanticStatus == Pass || access.value.attributesStatus == Pass);
    var p := perf.Some? && perf.value.featuresStatus == Pass;
    CompatibilitySummary(r, c, a, p, if r && c && a then Pass else Partial)
  }

  /** The overall status is always PASS or PARTIAL, so the report always
      succeeds; it is PASS exactly when the three counted tests pass, and the
      performance test has no say. */
  lemma SummarySpec(responsive: Option<ResponsiveResults>, css: Option<CssResults>,
                    access: Option<AccessibilityResults>, perf: Option<PerformanceResults>,
                    perf': Option<PerformanceResults>)
    ensures SummaryOf(responsive, css, access, perf).overallStatus in {Pass, Partial}
    ensures var s := SummaryOf(responsive, css, access, perf);
            s.overallStatus == Pass <==> s.responsiveDesign && s.cssCompatibility && s.accessibility
    ensures SummaryOf(responsive, css, access, perf).overallStatus ==
            SummaryOf(responsive, css, access, perf').overallStatus
  {
  }

  /** After the four tests, "responsive design" in the summary is the
      viewport verdict alone: the stylesheet features are not consulted. */
  lemma SummaryAfterTests(fs: FileSystem, listing: Listing)
    ensures var s := SummaryOf(Some(ResponsiveTests(fs, listing)), Some(CssTests(fs, listing)),
                               Some(AccessibilityTests(fs, listing)), Some(PerformanceTests(fs, listing)));
            && (s.responsiveDesign <==> ViewportFound(fs, listing))
            && (s.cssCompatibility <==> CssPasses(CssTests(fs, listing)))
            && (s.accessibility <==> AccessibilityPasses(AccessibilityTests(fs, listing)))
            && (s.performance <==> PerformancePasses(PerformanceTests(fs, listing)))
  {
    var r, c, a, p := ResponsiveTests(fs, listing), CssTests(fs, listing),
                      AccessibilityTests(fs, listing), PerformanceTests(fs, listing);
    assert r.viewportStatus == Pass <==> r.viewportFound;
    assert c.status == Pass <==> CssPasses(c);
    assert (a.semanticStatus == Pass || a.attributesStatus == Pass) <==> AccessibilityPasses(a);
    assert p.featuresStatus == Pass <==> PerformancePasses(p);
  }

  // ----- the test object -----

  class BrowserCompatibilityTest {
    var responsiveTests: Option<ResponsiveResults>
    var cssTests: Option<CssResults>
    var accessibilityTests: Option<AccessibilityResults>
    var performanceTests: Option<PerformanceResults>
    var summary: Option<CompatibilitySummary>

    constructor()
      ensures responsiveTests == None && cssTests == None && accessibilityTests == None
      ensures performanceTests == None && summary == None
    {
      responsiveTests := None;
      cssTests := None;
      accessibilityTests := None;
      performanceTests := None;
      summary := None;
    }

    method TestResponsiveDesign(fs: FileSystem, listing: Listing) returns (r: bool)
      modifies this
      ensures responsiveTests == Some(ResponsiveTests(fs, listing))
      ensures cssTests == old(cssTests) && accessibilityTests == old(accessibilityTests)
      ensures performanceTests == old(performanceTests) && summary == old(summary)
      ensures r == ResponsivePasses(ResponsiveTests(fs, listing))
    {
      var features := CollectResponsiveFeatures(fs, DirGlob(fs, listing, SassDir, ".scss"));
      var viewport, includesScanned := FindViewport(fs, listing);
      responsiveTests := Some(ResponsiveResults(features, |features|, if features != [] then Pass else Warn,
                                                viewport, if viewport then Pass else Fail));
      r := |features| > 0 && viewport;
    }

    method TestCssCompatibility(fs: FileSystem, listing: Listing) returns (r: bool)
      modifies this
      ensures cssTests == Some(CssTests(fs, listing))
      ensures responsiveTests == old(responsiveTests) && accessibilityTests == old(accessibilityTests)
      ensures performanceTests == old(performanceTests) && summary == old(summary)
      ensures r == CssPasses(CssTests(fs, listing))
    {
      var names := DirGlob(fs, listing, SassDir, ".scss");
      var features := CollectCssFeatures(fs, names);
      var vendor := CollectVendorPrefixes(fs, names);
      var total := CountFeatures(fs, names, features);
      cssTests := Some(CssResults(features, vendor, |vendor|, Info, total, if total > 5 then Pass else Warn));
      r := total > 5;
    }

    method TestAccessibilityFeatures(fs: FileSystem, listing: Listing) returns (r: bool)
      modifies this
      ensures accessibilityTests == Some(AccessibilityTests(fs, listing))
      ensures responsiveTests == old(responsiveTests) && cssTests == old(cssTests)
      ensures performanceTests == old(performanceTests) && summary == old(summary)
      ensures r == AccessibilityPasses(AccessibilityTests(fs, listing))
    {
      var s1, a1 := ScanAccessibility(fs, LayoutsDir, DirGlob(fs, listing, LayoutsDir, ".html"));
      var s2, a2 := ScanAccessibility(fs, IncludesDir, DirGlob(fs, listing, IncludesDir, ".html"));
      var semantic, attributes := s1 + s2, a1 + a2;
      accessibilityTests := Some(AccessibilityResults(semantic, if semantic != [] then Pass else Warn,
                                                      attributes, if attributes != [] then Pass else Warn));
      r := |semantic| > 0 || |attributes| > 0;
    }

    method TestPerformanceOptimization(fs: FileSystem, listing: Listing) returns (r: bool)
      modifies this
      ensures performanceTests == Some(PerformanceTests(fs, listing))
      ensures responsiveTests == old(responsiveTests) && cssTests == old(cssTests)
      ensures accessibilityTests == old(accessibilityTests) && summary == old(summary)
      ensures r == PerformancePasses(PerformanceTests(fs, listing))
    {
      var features := CollectPerformanceFeatures(fs);
      var images: seq<string> := [];
      if fs.Exists(ImagesDir) {
        images := CollectOptimizedImages(listing(ImagesDir));
      }
      performanceTests := Some(PerformanceResults(features, if features != [] then Pass else Warn,
                                                  images, if images != [] then Pass else Info));
      r := |features| > 0;
    }

    method GenerateCompatibilityReport() returns (success: bool)
      modifies this
      ensures summary == Some(SummaryOf(responsiveTests, cssTests, accessibilityTests, performanceTests))
      ensures responsiveTests == old(responsiveTests) && cssTests == old(cssTests)
      ensures accessibilityTests == old(accessibilityTests) && performanceTests == old(performanceTests)
      ensures success == (summary.value.overallStatus in {Pass, Partial})
    {
      var s := SummaryOf(responsiveTests, cssTests, accessibilityTests, performanceTests);
      summary := Some(s);
      success := s.overallStatus == Pass || s.overallStatus == Partial;
    }
  }

  /** `main`: the four tests, then the report; the exit status is 0 when the
      report succeeds, which it always does. */
  method RunBrowserTests(fs: FileSystem, listing: Listing) returns (code: int)
    ensures code == 0
  {
    var tester := new BrowserCompatibilityTest();
    var testsPassed: seq<bool> := [];
    var passed := tester.TestResponsiveDesign(fs, listing);
    testsPassed := testsPassed + [passed];
    passed := tester.TestCssCompatibility(fs, listing);
    testsPassed := testsPassed + [passed];
    passed := tester.TestAccessibilityFeatures(fs, listing);
    testsPassed := testsPassed + [passed];
    passed := tester.TestPerformanceOptimization(fs, listing);
    testsPassed := testsPassed + [passed];
    var success := tester.GenerateCompatibilityReport();
    SummarySpec(tester.responsiveTests, tester.cssTests, tester.accessibilityTests, tester.performanceTests,
                tester.performanceTests);
    code := if success then 0 else 1;
  }
}
