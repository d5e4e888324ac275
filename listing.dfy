/** Reading the entries of one directory, as `Path(dir).glob('*' + ext)`
    and `open(Path(dir) / name)` do, and the image formats two of the tests
    count as optimized. */
module Listings {
  import opened Text
  import opened Site
  import opened Seqs
  import Paths

  function EndsWithTest(ext: string): string -> bool {
    (name: string) => EndsWith(name, ext)
  }

  /** `Path(dir).glob('*' + ext)` when the directory exists, else nothing. */
  function DirGlob(fs: FileSystem, listing: Listing, dir: string, ext: string): seq<string> {
    if fs.Exists(dir) then Filter(listing(dir), EndsWithTest(ext)) else []
  }

  /** The contents of entry `name` of `dir`, when it can be read. */
  function ContentOf(fs: FileSystem, dir: string, name: string): Option<string> {
    fs.Read(Paths.Child(dir, name))
  }

  /** A suffix, lower-cased, of a modern image format. */
  predicate OptimizedSuffix(suffix: string) {
    suffix == ".webp" || suffix == ".avif"
  }

  /** An image whose `Path.suffix.lower()` is `.webp` or `.avif`. */
  predicate IsOptimized(name: string) {
    OptimizedSuffix(Lower(Paths.Suffix(name)))
  }

  // ----- flags and totals collected over the readable entries -----

  /** Entry `name` of `dir` can be read and its contents satisfy `p`. */
  predicate FileHas(fs: FileSystem, dir: string, name: string, p: string -> bool) {
    ContentOf(fs, dir, name).Some? && p(ContentOf(fs, dir, name).value)
  }

  /** What a flag that a scan sets inside `try: open(...) ... except: continue`
      holds once the loop over `names` is done. */
  predicate FoundIn(fs: FileSystem, dir: string, names: seq<string>, p: string -> bool) {
    exists i :: 0 <= i < |names| && FileHas(fs, dir, names[i], p)
  }

  lemma FoundInStep(fs: FileSystem, dir: string, names: seq<string>, i: nat, p: string -> bool)
    requires i < |names|
    ensures FoundIn(fs, dir, names[..i + 1], p) <==>
            FoundIn(fs, dir, names[..i], p) || FileHas(fs, dir, names[i], p)
  {
    var s, t := names[..i + 1], names[..i];
    assert s[i] == names[i];
    if FoundIn(fs, dir, s, p) && !FileHas(fs, dir, names[i], p) {
      var j :| 0 <= j < |s| && FileHas(fs, dir, s[j], p);
      assert t[j] == s[j];
    }
    if FoundIn(fs, dir, t, p) {
      var j :| 0 <= j < |t| && FileHas(fs, dir, t[j], p);
      assert s[j] == t[j];
    }
  }

  /** What `f` yields on entry `name` of `dir`, or 0 when it cannot be read. */
  function Amount(fs: FileSystem, dir: string, name: string, f: string -> nat): nat {
    match ContentOf(fs, dir, name)
    case Some(c) => f(c)
    case None => 0
  }

  /** An accumulator that a scan increases by `f(content)` for every entry it can read. */
  function Total(fs: FileSystem, dir: string, names: seq<string>, f: string -> nat): nat {
    if names == [] then 0
    else Total(fs, dir, names[..|names| - 1], f) + Amount(fs, dir, names[|names| - 1], f)
  }

  lemma TotalStep(fs: FileSystem, dir: string, names: seq<string>, i: nat, f: string -> nat)
    requires i < |names|
    ensures Total(fs, dir, names[..i + 1], f) == Total(fs, dir, names[..i], f) + Amount(fs, dir, names[i], f)
  {
    assert names[..i + 1][..i] == names[..i];
  }

  /** The total is positive exactly when some readable entry contributes. */
  lemma {:induction false} TotalPositive(fs: FileSystem, dir: string, names: seq<string>, f: string -> nat)
    ensures Total(fs, dir, names, f) > 0 <==> exists i :: 0 <= i < |names| && Amount(fs, dir, names[i], f) > 0
  {
    if names != [] {
      var init := names[..|names| - 1];
      TotalPositive(fs, dir, init, f);
      if Total(fs, dir, init, f) > 0 {
        var i :| 0 <= i < |init| && Amount(fs, dir, init[i], f) > 0;
        assert names[i] == init[i];
      }
      if exists i :: 0 <= i < |names| && Amount(fs, dir, names[i], f) > 0 {
        var i :| 0 <= i < |names| && Amount(fs, dir, names[i], f) > 0;
        if i < |init| {
          assert init[i] == names[i];
        }
      }
    }
  }
}
