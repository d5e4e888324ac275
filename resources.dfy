/** The resource path validator: the avatar named in `_config.yml`, the
    stylesheets linked from `_includes/head.html`, the scripts loaded by
    `_includes/scripts.html`, the images of the pages under `_pages`, and the
    Font Awesome sources. Each check returns a list of issues; the run's
    result is the number of issues labelled `ERROR`. */
module Resources {
  import opened Text
  import opened Site
  import opened Yaml
  import opened Seqs
  import opened Issues
  import opened Captures
  import Deployment

  const ConfigFile := "_config.yml"
  const HeadFile := "_includes/head.html"
  const ScriptsFile := "_includes/scripts.html"
  const PagesDir := "_pages"
  const FontAwesomeDir := "_sass/vendor/font-awesome"
  /** The stylesheet Jekyll compiles from `MainScss`. */
  const MainCss := "assets/css/main.css"
  const MainScss := "assets/css/main.scss"

  // ----- the avatar -----

  /** The avatar check on the `author` entry. `'avatar' in author` is a
      membership test on a mapping but a substring test on a string, and a
      `TypeError` on a null; indexing a string by `'avatar'` and
      `os.path.exists(None)` raise as well. */
  function AvatarIssues(fs: FileSystem, author: Author): Outcome<seq<string>> {
    match author
    case NoAuthor => Returned([])
    case AuthorNull => Raised
    case AuthorText(t) => if Contains(t, "avatar") then Raised else Returned([])
    case AuthorMapping(Absent) => Returned([])
    case AuthorMapping(Null) => Raised
    case AuthorMapping(Str(p)) =>
      if !fs.Exists(p) then Returned([ErrorIssue("Avatar image not found: " + p)]) else Returned([])
  }

  /** `validate_config_resources`: a missing configuration is the one error;
      a configuration that does not load, or loads as no mapping, raises. */
  function ConfigIssues(fs: FileSystem, yaml: Loader): Outcome<seq<string>> {
    if !fs.Exists(ConfigFile) then Returned(["ERROR: _config.yml not found"])
    else if ConfigFile !in fs.text then Raised
    else
      match yaml.config(fs.text[ConfigFile])
      case ConfigMalformed(_) => Raised
      case ConfigFailed => Raised
      case ConfigEmpty => Raised
      case ConfigMapping(config) => AvatarIssues(fs, config.author)
  }

  lemma MissingConfig(fs: FileSystem, yaml: Loader)
    requires !fs.Exists(ConfigFile)
    ensures ConfigIssues(fs, yaml) == Returned(["ERROR: _config.yml not found"])
    ensures |Errors(ConfigIssues(fs, yaml).value)| == 1
  {
    MissingConfigIsError();
    AllErrors(["ERROR: _config.yml not found"]);
  }

  lemma MissingConfigIsError()
    ensures StartsWith("ERROR: _config.yml not found", "ERROR")
  {
    var m := "ERROR: _config.yml not found";
    assert m[..5] == "ERROR";
  }

  /** The check raises exactly on a null author, a string author containing
      `avatar`, and a null avatar; otherwise the avatar is checked only when
      a mapping names one, and a missing one is the single issue, an error. */
  lemma AvatarSpec(fs: FileSystem, author: Author)
    ensures AvatarIssues(fs, author).Raised? <==>
              author.AuthorNull? || (author.AuthorText? && Contains(author.text, "avatar")) ||
              (author.AuthorMapping? && author.avatar.Null?)
    ensures AvatarIssues(fs, author).Returned? ==>
              && |AvatarIssues(fs, author).value| <= 1
              && (AvatarIssues(fs, author).value == [] <==>
                    !(author.AuthorMapping? && author.avatar.Str?) || fs.Exists(author.avatar.value))
              && Errors(AvatarIssues(fs, author).value) == AvatarIssues(fs, author).value
  {
    if author.AuthorMapping? && author.avatar.Str? && !fs.Exists(author.avatar.value) {
      var m := "Avatar image not found: " + author.avatar.value;
      Labels(m);
      AllErrors([ErrorIssue(m)]);
    }
  }

  method ValidateConfigResources(fs: FileSystem, yaml: Loader) returns (r: Outcome<seq<string>>)
    ensures r == ConfigIssues(fs, yaml)
  {
    if !fs.Exists(ConfigFile) {
      return Returned(["ERROR: _config.yml not found"]);
    }
    if ConfigFile !in fs.text {
      return Raised;
    }
    var doc := yaml.config(fs.text[ConfigFile]);
    if !doc.ConfigMapping? {
      return Raised;
    }
    assert doc == ConfigMapping(doc.config);
    var issues: seq<string> := [];
    var author := doc.config.author;
    assert ConfigIssues(fs, yaml) == AvatarIssues(fs, author);
    if author.AuthorNull? {
      return Raised;
    }
    if author.AuthorText? && Contains(author.text, "avatar") {
      return Raised;
    }
    if author.AuthorMapping? {
      var avatar := author.avatar;
      if avatar.Null? {
        return Raised;
      }
      if avatar.Str? && !fs.Exists(avatar.value) {
        var m := ErrorIssue("Avatar image not found: " + avatar.value);
        issues := issues + [m];
        assert issues == [m];
      }
    }
    r := Returned(issues);
  }

  // ----- stylesheets -----

  /** `re.findall(r'href="([^"]*\.css)"', content)`. */
  function CssRefs(content: string): seq<string> {
    QuotedRefs(content, "href=\"", ".css")
  }

  /** The reference is reported: `main.css` when its Sass source is absent,
      any other stylesheet when it is absent itself. */
  predicate CssMissing(fs: FileSystem, ref: string) {
    if ref == MainCss then !fs.Exists(MainScss) else !fs.Exists(ref)
  }

  function CssMissingTest(fs: FileSystem): string -> bool {
    (ref: string) => CssMissing(fs, ref)
  }

  function CssRefIssue(fs: FileSystem, ref: string): seq<string> {
    if ref == MainCss then
      (if fs.Exists(MainScss) then [] else [ErrorIssue("SCSS source not found: " + MainScss)])
    else if !fs.Exists(ref) then [ErrorIssue("CSS file not found: " + ref)]
    else []
  }

  function CssIssuesOf(fs: FileSystem): string -> seq<string> {
    (ref: string) => CssRefIssue(fs, ref)
  }

  /** `validate_css_resources`: nothing to check without a head include. */
  function CssIssues(fs: FileSystem): Outcome<seq<string>> {
    if !fs.Exists(HeadFile) then Returned([])
    else if HeadFile !in fs.text then Raised
    else Returned(FlatMap(CssRefs(fs.text[HeadFile]), CssIssuesOf(fs)))
  }

  /** Every stylesheet reference found ends with `.css`. */
  lemma CssRefsAreStylesheets(content: string)
    ensures forall j :: 0 <= j < |CssRefs(content)| ==> EndsWith(CssRefs(content)[j], ".css")
  {
    QuotedRefsShape(content, "href=\"", ".css");
  }

  /** One error for each reference that is missing and nothing for the others. */
  lemma CssRefIssueSpec(fs: FileSystem, ref: string)
    ensures |CssRefIssue(fs, ref)| == if CssMissing(fs, ref) then 1 else 0
    ensures forall j :: 0 <= j < |CssRefIssue(fs, ref)| ==> StartsWith(CssRefIssue(fs, ref)[j], "ERROR")
  {
    Labels("SCSS source not found: " + MainScss);
    Labels("CSS file not found: " + ref);
  }

  /** `main.css` is judged by its Sass source only: whether `main.css`
      itself exists makes no difference. */
  lemma MainCssJudgedBySource(fs: FileSystem, fs': FileSystem)
    requires fs.Exists(MainScss) == fs'.Exists(MainScss)
    ensures CssRefIssue(fs, MainCss) == CssRefIssue(fs', MainCss)
  {
  }

  /** The stylesheet errors are exactly one per missing reference. */
  lemma CssIssuesSpec(fs: FileSystem, refs: seq<string>)
    ensures |FlatMap(refs, CssIssuesOf(fs))| == CountIf(refs, CssMissingTest(fs))
    ensures Errors(FlatMap(refs, CssIssuesOf(fs))) == FlatMap(refs, CssIssuesOf(fs))
  {
    var f := CssIssuesOf(fs);
    forall i | 0 <= i < |refs| ensures |f(refs[i])| == if CssMissingTest(fs)(refs[i]) then 1 else 0 {
      CssRefIssueSpec(fs, refs[i]);
    }
    FlatMapCount(refs, f, CssMissingTest(fs));
    forall i, j | 0 <= i < |refs| && 0 <= j < |f(refs[i])| ensures PrefixTest("ERROR")(f(refs[i])[j]) {
      CssRefIssueSpec(fs, refs[i]);
    }
    FlatMapAll(refs, f, PrefixTest("ERROR"));
    AllErrors(FlatMap(refs, f));
  }

  method ValidateCssResources(fs: FileSystem) returns (r: Outcome<seq<string>>)
    ensures r == CssIssues(fs)
  {
    if !fs.Exists(HeadFile) {
      return Returned([]);
    }
    if HeadFile !in fs.text {
      return Raised;
    }
    var refs := CssRefs(fs.text[HeadFile]);
    var issues: seq<string> := [];
    for i := 0 to |refs|
      invariant issues == FlatMap(refs[..i], CssIssuesOf(fs))
    {
      var ref := refs[i];
      if ref == MainCss {
        if !fs.Exists(MainScss) {
          issues := issues + [ErrorIssue("SCSS source not found: " + MainScss)];
        }
      } else if !fs.Exists(ref) {
        issues := issues + [ErrorIssue("CSS file not found: " + ref)];
      }
      assert refs[..i + 1] == refs[..i] + [ref];
      FlatMapSnoc(refs[..i], ref, CssIssuesOf(fs));
    }
    assert refs[..|refs|] == refs;
    r := Returned(issues);
  }

  // ----- scripts -----

  /** `re.findall(r'src="([^"]*\.js)"', content)`. */
  function JsRefs(content: string): seq<string> {
    QuotedRefs(content, "src=\"", ".js")
  }

  function JsMissingTest(fs: FileSystem): string -> bool {
    (ref: string) => !fs.Exists(ref)
  }

  function JsRefIssue(fs: FileSystem, ref: string): seq<string> {
    if !fs.Exists(ref) then [ErrorIssue("JavaScript file not found: " + ref)] else []
  }

  function JsIssuesOf(fs: FileSystem): string -> seq<string> {
    (ref: string) => JsRefIssue(fs, ref)
  }

  /** `validate_js_resources`: nothing to check without a scripts include. */
  function JsIssues(fs: FileSystem): Outcome<seq<string>> {
    if !fs.Exists(ScriptsFile) then Returned([])
    else if ScriptsFile !in fs.text then Raised
    else Returned(FlatMap(JsRefs(fs.text[ScriptsFile]), JsIssuesOf(fs)))
  }

  /** Every script reference found ends with `.js`. */
  lemma JsRefsAreScripts(content: string)
    ensures forall j :: 0 <= j < |JsRefs(content)| ==> EndsWith(JsRefs(content)[j], ".js")
  {
    QuotedRefsShape(content, "src=\"", ".js");
  }

  /** The script errors are exactly one per missing reference. */
  lemma JsIssuesSpec(fs: FileSystem, refs: seq<string>)
    ensures |FlatMap(refs, JsIssuesOf(fs))| == CountIf(refs, JsMissingTest(fs))
    ensures Errors(FlatMap(refs, JsIssuesOf(fs))) == FlatMap(refs, JsIssuesOf(fs))
  {
    var f := JsIssuesOf(fs);
    FlatMapCount(refs, f, JsMissingTest(fs));
    forall i, j | 0 <= i < |refs| && 0 <= j < |f(refs[i])| ensures PrefixTest("ERROR")(f(refs[i])[j]) {
      Labels("JavaScript file not found: " + refs[i]);
    }
    FlatMapAll(refs, f, PrefixTest("ERROR"));
    AllErrors(FlatMap(refs, f));
  }

  method ValidateJsResources(fs: FileSystem) returns (r: Outcome<seq<string>>)
    ensures r == JsIssues(fs)
  {
    if !fs.Exists(ScriptsFile) {
      return Returned([]);
    }
    if ScriptsFile !in fs.text {
      return Raised;
    }
    var refs := JsRefs(fs.text[ScriptsFile]);
    var issues: seq<string> := [];
    for i := 0 to |refs|
      invariant issues == FlatMap(refs[..i], JsIssuesOf(fs))
    {
      var ref := refs[i];
      if !fs.Exists(ref) {
        issues := issues + [ErrorIssue("JavaScript file not found: " + ref)];
      }
      assert refs[..i + 1] == refs[..i] + [ref];
      FlatMapSnoc(refs[..i], ref, JsIssuesOf(fs));
    }
    assert refs[..|refs|] == refs;
    r := Returned(issues);
  }

  // ----- images -----

  /** The markdown image targets of a page, then its `<img>` sources. */
  function ImageRefs(content: string): seq<string> {
    MarkdownImages(content) + ImgSources(content)
  }

  /** The reference is reported: it is not an external URL and it is absent. */
  predicate ImageMissing(fs: FileSystem, ref: string) {
    !StartsWith(ref, "http") && !fs.Exists(ref)
  }

  function ImageMissingTest(fs: FileSystem): string -> bool {
    (ref: string) => ImageMissing(fs, ref)
  }

  function ImageRefIssue(fs: FileSystem, page: string, ref: string): seq<string> {
    if StartsWith(ref, "http") then []
    else if !fs.Exists(ref) then [ErrorIssue("Image not found in " + page + ": " + ref)]
    else []
  }

  function ImageIssuesOf(fs: FileSystem, page: string): string -> seq<string> {
    (ref: string) => ImageRefIssue(fs, page, ref)
  }

  function PageImageIssues(fs: FileSystem, page: string, content: string): seq<string> {
    FlatMap(ImageRefs(content), ImageIssuesOf(fs, page))
  }

  /** The pages in turn; a page that cannot be read raises. */
  function PagesImageIssues(fs: FileSystem, pages: seq<string>): Outcome<seq<string>> {
    if pages == [] then Returned([])
    else
      var last := pages[|pages| - 1];
      match PagesImageIssues(fs, pages[..|pages| - 1])
      case Raised => Raised
      case Returned(issues) =>
        if last !in fs.text then Raised else Returned(issues + PageImageIssues(fs, last, fs.text[last]))
  }

  /** `validate_image_references`, over the entries of `_pages` in the order
      the directory lists them. */
  function ImageIssues(fs: FileSystem, entries: seq<string>): Outcome<seq<string>> {
    if !fs.Exists(PagesDir) then Returned([])
    else PagesImageIssues(fs, Deployment.Glob(entries, ".md"))
  }

  /** An external reference is skipped whether or not a file of that name exists. */
  lemma ExternalImagesSkipped(fs: FileSystem, page: string, ref: string)
    requires StartsWith(ref, "http")
    ensures ImageRefIssue(fs, page, ref) == []
  {
  }

  /** The image errors of a page are exactly one per missing local reference. */
  lemma PageImageIssuesSpec(fs: FileSystem, page: string, content: string)
    ensures |PageImageIssues(fs, page, content)| == CountIf(ImageRefs(content), ImageMissingTest(fs))
    ensures Errors(PageImageIssues(fs, page, content)) == PageImageIssues(fs, page, content)
  {
    var refs := ImageRefs(content);
    var f := ImageIssuesOf(fs, page);
    FlatMapCount(refs, f, ImageMissingTest(fs));
    forall i, j | 0 <= i < |refs| && 0 <= j < |f(refs[i])| ensures PrefixTest("ERROR")(f(refs[i])[j]) {
      Labels("Image not found in " + page + ": " + refs[i]);
    }
    FlatMapAll(refs, f, PrefixTest("ERROR"));
    AllErrors(FlatMap(refs, f));
  }

  /** Every issue of the image check is an error. */
  lemma {:induction false} PagesImageIssuesAreErrors(fs: FileSystem, pages: seq<string>)
    requires PagesImageIssues(fs, pages).Returned?
    ensures Errors(PagesImageIssues(fs, pages).value) == PagesImageIssues(fs, pages).value
  {
    if pages != [] {
      var last := pages[|pages| - 1];
      var init := pages[..|pages| - 1];
      PagesImageIssuesAreErrors(fs, init);
      PageImageIssuesSpec(fs, last, fs.text[last]);
      WithPrefixAppend(PagesImageIssues(fs, init).value, PageImageIssues(fs, last, fs.text[last]), "ERROR");
    }
  }

  predicate AllReadable(fs: FileSystem, pages: seq<string>) {
    forall i :: 0 <= i < |pages| ==> pages[i] in fs.text
  }

  /** The image check raises exactly when one of the pages cannot be read. */
  lemma {:induction false} PagesImageIssuesRaise(fs: FileSystem, pages: seq<string>)
    ensures PagesImageIssues(fs, pages).Raised? <==> !AllReadable(fs, pages)
  {
    if pages != [] {
      var init := pages[..|pages| - 1];
      PagesImageIssuesRaise(fs, init);
      assert AllReadable(fs, pages) <==> AllReadable(fs, init) && pages[|pages| - 1] in fs.text by {
        assert forall i :: 0 <= i < |init| ==> pages[i] == init[i];
      }
    }
  }

  /** The inner loop: the issues of one page's references. */
  method CheckImageRefs(fs: FileSystem, page: string, refs: seq<string>) returns (issues: seq<string>)
    ensures issues == FlatMap(refs, ImageIssuesOf(fs, page))
  {
    issues := [];
    for i := 0 to |refs|
      invariant issues == FlatMap(refs[..i], ImageIssuesOf(fs, page))
    {
      var ref := refs[i];
      if !StartsWith(ref, "http") {
        if !fs.Exists(ref) {
          issues := issues + [ErrorIssue("Image not found in " + page + ": " + ref)];
        }
      }
      assert refs[..i + 1] == refs[..i] + [ref];
      FlatMapSnoc(refs[..i], ref, ImageIssuesOf(fs, page));
    }
    assert refs[..|refs|] == refs;
  }

  /** The outer loop over the pages. */
  method CheckPages(fs: FileSystem, pages: seq<string>) returns (r: Outcome<seq<string>>)
    ensures r == PagesImageIssues(fs, pages)
  {
    var issues: seq<string> := [];
    for i := 0 to |pages|
      invariant PagesImageIssues(fs, pages[..i]) == Returned(issues)
    {
      var page := pages[i];
      assert pages[..i + 1][..i] == pages[..i];
      if page !in fs.text {
        PagesImageIssuesRaise(fs, pages);
        assert pages[i] !in fs.text;
        return Raised;
      }
      var refs := ImageRefs(fs.text[page]);
      var found := CheckImageRefs(fs, page, refs);
      issues := issues + found;
    }
    assert pages[..|pages|] == pages;
    r := Returned(issues);
  }

  method ValidateImageReferences(fs: FileSystem, entries: seq<string>) returns (r: Outcome<seq<string>>)
    ensures r == ImageIssues(fs, entries)
  {
    if !fs.Exists(PagesDir) {
      return Returned([]);
    }
    r := CheckPages(fs, Deployment.Glob(entries, ".md"));
  }

  // ----- fonts -----

  /** `validate_font_resources`. */
  function FontIssues(fs: FileSystem): seq<string> {
    if fs.Exists(FontAwesomeDir) then [] else [WarningIssue("Font Awesome SCSS files not found")]
  }

  /** The font check only ever warns. */
  lemma FontIssuesWarnOnly(fs: FileSystem)
    ensures Errors(FontIssues(fs)) == []
  {
    Labels("Font Awesome SCSS files not found");
    WarningsOnly(FontIssues(fs));
  }

  method ValidateFontResources(fs: FileSystem) returns (issues: seq<string>)
    ensures issues == FontIssues(fs)
  {
    issues := [];
    if !fs.Exists(FontAwesomeDir) {
      issues := issues + [WarningIssue("Font Awesome SCSS files not found")];
    }
  }

  // ----- main -----

  /** The five checks in order; a check that raises ends the run. */
  function AllIssues(fs: FileSystem, yaml: Loader, entries: seq<string>): Outcome<seq<string>> {
    match (ConfigIssues(fs, yaml), CssIssues(fs), JsIssues(fs), ImageIssues(fs, entries))
    case (Returned(c), Returned(s), Returned(j), Returned(m)) => Returned(c + s + j + m + FontIssues(fs))
    case _ => Raised
  }

  /** The result of `main` counts every issue but the font warning: every
      other issue is an error. */
  lemma ErrorCountSkipsFonts(fs: FileSystem, yaml: Loader, entries: seq<string>)
    requires AllIssues(fs, yaml, entries).Returned?
    ensures |Errors(AllIssues(fs, yaml, entries).value)| == |AllIssues(fs, yaml, entries).value| - |FontIssues(fs)|
  {
    var c := ConfigIssues(fs, yaml).value;
    var s := CssIssues(fs).value;
    var j := JsIssues(fs).value;
    var m := ImageIssues(fs, entries).value;
    var font := FontIssues(fs);
    ConfigIssuesAreErrors(fs, yaml);
    if fs.Exists(HeadFile) {
      CssIssuesSpec(fs, CssRefs(fs.text[HeadFile]));
    }
    if fs.Exists(ScriptsFile) {
      JsIssuesSpec(fs, JsRefs(fs.text[ScriptsFile]));
    }
    if fs.Exists(PagesDir) {
      PagesImageIssuesAreErrors(fs, Deployment.Glob(entries, ".md"));
    }
    FontIssuesWarnOnly(fs);
    ErrorsOfFive(c, s, j, m, font);
    assert AllIssues(fs, yaml, entries).value == c + s + j + m + font;
  }

  lemma ConfigIssuesAreErrors(fs: FileSystem, yaml: Loader)
    requires ConfigIssues(fs, yaml).Returned?
    ensures Errors(ConfigIssues(fs, yaml).value) == ConfigIssues(fs, yaml).value
  {
    if !fs.Exists(ConfigFile) {
      MissingConfig(fs, yaml);
    } else {
      AvatarSpec(fs, yaml.config(fs.text[ConfigFile]).config.author);
    }
  }

  lemma ErrorsOfFive(c: seq<string>, s: seq<string>, j: seq<string>, m: seq<string>, font: seq<string>)
    requires Errors(c) == c && Errors(s) == s && Errors(j) == j && Errors(m) == m
    requires Errors(font) == []
    ensures |Errors(c + s + j + m + font)| == |c + s + j + m + font| - |font|
  {
    WithPrefixAppend(c, s, "ERROR");
    WithPrefixAppend(c + s, j, "ERROR");
    WithPrefixAppend(c + s + j, m, "ERROR");
    WithPrefixAppend(c + s + j + m, font, "ERROR");
  }

  /** `main`: the number of errors among the issues, or Raised when a check
      raises (the process then exits with status 1). */
  method ValidateResources(fs: FileSystem, yaml: Loader, entries: seq<string>) returns (r: Outcome<nat>)
    ensures AllIssues(fs, yaml, entries).Raised? ==> r == Raised
    ensures AllIssues(fs, yaml, entries).Returned? ==>
              r == Returned(|Errors(AllIssues(fs, yaml, entries).value)|)
  {
    var allIssues: seq<string> := [];
    var config := ValidateConfigResources(fs, yaml);
    if config.Raised? {
      return Raised;
    }
    allIssues := allIssues + config.value;
    var css := ValidateCssResources(fs);
    if css.Raised? {
      return Raised;
    }
    allIssues := allIssues + css.value;
    var js := ValidateJsResources(fs);
    if js.Raised? {
      return Raised;
    }
    allIssues := allIssues + js.value;
    var images := ValidateImageReferences(fs, entries);
    if images.Raised? {
      return Raised;
    }
    allIssues := allIssues + images.value;
    var fonts := ValidateFontResources(fs);
    allIssues := allIssues + fonts;
    assert [] + config.value == config.value;
    r := Returned(|Errors(allIssues)|);
  }

  /** The process exit status of the script: `exit(main())`, with 1 for an
      exception that escapes `main`. */
  method RunValidateResources(fs: FileSystem, yaml: Loader, entries: seq<string>) returns (code: nat)
    ensures code < 256
    ensures AllIssues(fs, yaml, entries).Raised? ==> code == 1
    ensures AllIssues(fs, yaml, entries).Returned? ==>
              code == ExitStatus(|Errors(AllIssues(fs, yaml, entries).value)|)
    ensures code == 0 <==>
              AllIssues(fs, yaml, entries).Returned? && |Errors(AllIssues(fs, yaml, entries).value)| % 256 == 0
  {
    var r := ValidateResources(fs, yaml, entries);
    if r.Raised? {
      return 1;
    }
    code := ExitStatus(r.value);
  }
}
