/** The performance and SEO test object: three test methods that store a
    result record each and return a verdict, and a report whose overall
    status weighs the statuses stored in the records. */
module PerformanceSeo {
  import opened Site
  import opened Yaml
  import opened Seqs
  import opened Listings
  import opened Performance
  import opened Seo
  import opened Mobile

  // ----- the summary -----

  /** How many of the three, three and two checks of each test passed; a
      test that has not run scores 0. The scores are these counts over 3, 3
      and 2. */
  datatype PerformanceSeoSummary = PerformanceSeoSummary(
    performancePassed: nat, seoPassed: nat, mobilePassed: nat, overallStatus: Status)

  function PerformancePassed(r: Option<PerformanceResults>): nat {
    match r
    case None => 0
    case Some(p) => Indicator(p.imagesStatus == Pass) + Indicator(p.cssStatus == Pass) + Indicator(p.issuesStatus == Pass)
  }

  function SeoPassed(r: Option<SeoResults>): nat {
    match r
    case None => 0
    case Some(s) => Indicator(s.configStatus == Pass) + Indicator(s.pagesStatus == Pass) + Indicator(s.structuredStatus == Pass)
  }

  function MobilePassed(r: Option<MobileResults>): nat {
    match r
    case None => 0
    case Some(m) => Indicator(m.responsiveStatus == Pass) + Indicator(m.optimizationsStatus == Pass)
  }

  /** The overall status: the mean of `a/3`, `b/3` and `c/2` above 0.7, which
      in exact arithmetic is `20a + 20b + 30c > 126`, that is
      `2a + 2b + 3c >= 13`. */
  function SummaryOf(perf: Option<PerformanceResults>, seo: Option<SeoResults>, mobile: Option<MobileResults>)
    : PerformanceSeoSummary
  {
    var a, b, c := PerformancePassed(perf), SeoPassed(seo), MobilePassed(mobile);
    PerformanceSeoSummary(a, b, c, if 2 * a + 2 * b + 3 * c >= 13 then Pass else Warn)
  }

  /** The overall status is PASS or WARN. It is PASS exactly when both
      mobile checks pass and four of the six others do, or one mobile check
      passes and five of the six others do; so it needs all three tests to
      have run. */
  lemma SummarySpec(perf: Option<PerformanceResults>, seo: Option<SeoResults>, mobile: Option<MobileResults>)
    ensures SummaryOf(perf, seo, mobile).overallStatus == Pass || SummaryOf(perf, seo, mobile).overallStatus == Warn
    ensures var s := SummaryOf(perf, seo, mobile);
            s.overallStatus == Pass <==>
            (s.mobilePassed == 2 && s.performancePassed + s.seoPassed >= 4) ||
            (s.mobilePassed == 1 && s.performancePassed + s.seoPassed >= 5)
    ensures SummaryOf(perf, seo, mobile).overallStatus == Pass ==> perf.Some? && seo.Some? && mobile.Some?
  {
    var s := SummaryOf(perf, seo, mobile);
    assert s.performancePassed <= 3 && s.seoPassed <= 3 && s.mobilePassed <= 2;
  }

  // ----- the test object -----

  class PerformanceSeoTest {
    var performanceTests: Option<PerformanceResults>
    var seoTests: Option<SeoResults>
    var mobileTests: Option<MobileResults>
    var summary: Option<PerformanceSeoSummary>

    constructor()
      ensures performanceTests == None && seoTests == None && mobileTests == None && summary == None
    {
      performanceTests := None;
      seoTests := None;
      mobileTests := None;
      summary := None;
    }

    method TestPagePerformance(fs: FileSystem, listing: Listing) returns (r: bool)
      modifies this
      ensures performanceTests == Some(PerformanceTests(fs, listing))
      ensures seoTests == old(seoTests) && mobileTests == old(mobileTests) && summary == old(summary)
      ensures r == PerformancePasses(performanceTests.value)
    {
      var res := PagePerformance(fs, listing);
      performanceTests := Some(res);
      r := |res.issues| == 0 && res.css.Any();
    }

    method TestSeoOptimization(fs: FileSystem, listing: Listing, loader: Loader) returns (r: bool)
      modifies this
      ensures seoTests == Some(SeoTests(fs, listing, loader))
      ensures performanceTests == old(performanceTests) && mobileTests == old(mobileTests) && summary == old(summary)
      ensures seoTests.value.pages.Valid() && r == SeoPasses(seoTests.value)
    {
      var res := SeoOptimization(fs, listing, loader);
      seoTests := Some(res);
      r := res.config.seoPlugin && |res.pages.keys| > 0 &&
           10 * FactorSum(res.pages.keys, res.pages.pages) > 49 * |res.pages.keys| &&
           res.structured.Count() >= 1;
    }

    method TestMobilePerformance(fs: FileSystem, listing: Listing) returns (r: bool)
      modifies this
      ensures mobileTests == Some(MobileTests(fs, listing))
      ensures performanceTests == old(performanceTests) && seoTests == old(seoTests) && summary == old(summary)
      ensures r == MobilePasses(mobileTests.value)
    {
      var res := MobileOptimization(fs, listing);
      mobileTests := Some(res);
      r := res.responsive.Points() >= 4 && res.optimizations.compressedImages > 0;
    }

    method GeneratePerformanceReport() returns (success: bool)
      modifies this
      ensures summary == Some(SummaryOf(performanceTests, seoTests, mobileTests))
      ensures performanceTests == old(performanceTests) && seoTests == old(seoTests) && mobileTests == old(mobileTests)
      ensures success == (summary.value.overallStatus == Pass)
    {
      var s := SummaryOf(performanceTests, seoTests, mobileTests);
      summary := Some(s);
      success := s.overallStatus == Pass;
    }
  }

  /** `main`: the three tests, then the report; the exit status is 0 exactly
      when the overall status of the three results is PASS. */
  method RunPerformanceSeo(fs: FileSystem, listing: Listing, loader: Loader) returns (code: int)
    ensures code == 0 || code == 1
    ensures code == 0 <==>
            SummaryOf(Some(PerformanceTests(fs, listing)), Some(SeoTests(fs, listing, loader)),
                      Some(MobileTests(fs, listing))).overallStatus == Pass
  {
    var tester := new PerformanceSeoTest();
    var testsPassed: seq<bool> := [];
    var passed := tester.TestPagePerformance(fs, listing);
    testsPassed := testsPassed + [passed];
    passed := tester.TestSeoOptimization(fs, listing, loader);
    testsPassed := testsPassed + [passed];
    passed := tester.TestMobilePerformance(fs, listing);
    testsPassed := testsPassed + [passed];
    var success := tester.GeneratePerformanceReport();
    code := if success then 0 else 1;
  }
}
