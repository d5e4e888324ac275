/** Path arithmetic of `os.path` and `pathlib` on POSIX, for the relative paths
    the scripts build. */
module Paths {
  import opened Text

  /** `os.path.join(dir, name)` and `Path(dir) / name` for a relative `name`. */
  function Child(dir: string, name: string): string {
    dir + "/" + name
  }

  /** Python `s.rfind(c)` for one character. */
  function LastIndex(s: string, c: char): (r: int)
    ensures -1 <= r < |s|
    ensures r >= 0 ==> s[r] == c
    ensures forall k :: r < k < |s| ==> s[k] != c
  {
    if s == [] then -1
    else if s[|s| - 1] == c then |s| - 1
    else LastIndex(s[..|s| - 1], c)
  }

  /** `os.path.basename(p)` and `Path(p).name`. */
  function BaseName(p: string): (r: string)
    ensures '/' !in r
  {
    p[LastIndex(p, '/') + 1..]
  }

  /** `Path(p).suffix`: the final dot-suffix of the last component, or "" when
      the name has no dot, starts with its only dot, or ends with a dot. */
  function Suffix(p: string): (r: string)
    ensures r == "" || (r[0] == '.' && |r| >= 2 && EndsWith(BaseName(p), r))
  {
    var name := BaseName(p);
    var i := LastIndex(name, '.');
    if 0 < i < |name| - 1 then name[i..] else ""
  }

  /** A path ending in a dot-suffix `e` that holds no separator and no other
      dot has suffix `e`, or none when `e` is the whole last component. */
  lemma SuffixOfEnding(p: string, e: string)
    requires |e| >= 2 && EndsWith(p, e) && e[0] == '.'
    requires forall k :: 0 <= k < |e| ==> e[k] != '/'
    requires forall k :: 1 <= k < |e| ==> e[k] != '.'
    ensures |Suffix(p)| == 0 || |Suffix(p)| == |e|
  {
    BaseNameKeepsEnding(p, e);
    var name := BaseName(p);
    LastDotOfEnding(name, e);
    var d := |name| - |e|;
    assert Suffix(p) == if 0 < d < |name| - 1 then name[d..] else "";
  }

  /** An ending without a separator survives taking the last component. */
  lemma BaseNameKeepsEnding(p: string, e: string)
    requires EndsWith(p, e)
    requires forall k :: 0 <= k < |e| ==> e[k] != '/'
    ensures EndsWith(BaseName(p), e)
  {
    LastSeparatorBefore(p, e);
    var j := LastIndex(p, '/') + 1;
    SuffixOfSuffix(p, j, |e|);
  }

  lemma SuffixOfSuffix(p: string, j: nat, m: nat)
    requires j <= |p| - m
    ensures p[j..][|p| - j - m..] == p[|p| - m..]
  {
  }

  /** The last separator of `p` lies before an ending without one. */
  lemma LastSeparatorBefore(p: string, e: string)
    requires EndsWith(p, e)
    requires forall k :: 0 <= k < |e| ==> e[k] != '/'
    ensures LastIndex(p, '/') < |p| - |e|
  {
    EndingChars(p, e);
  }

  /** The last dot of a name ending in `e` is the first character of `e`. */
  lemma LastDotOfEnding(name: string, e: string)
    requires |e| >= 1 && EndsWith(name, e) && e[0] == '.'
    requires forall k :: 1 <= k < |e| ==> e[k] != '.'
    ensures LastIndex(name, '.') == |name| - |e|
  {
    EndingChars(name, e);
    LastIndexAt(name, '.', |name| - |e|);
  }

  lemma EndingChars(s: string, e: string)
    requires EndsWith(s, e)
    ensures forall k :: |s| - |e| <= k < |s| ==> s[k] == e[k - (|s| - |e|)]
  {
    forall k | |s| - |e| <= k < |s| ensures s[k] == e[k - (|s| - |e|)] {
      assert s[|s| - |e|..][k - (|s| - |e|)] == s[k];
    }
  }

  lemma LastIndexAt(s: string, c: char, d: nat)
    requires d < |s| && s[d] == c
    requires forall k :: d < k < |s| ==> s[k] != c
    ensures LastIndex(s, c) == d
  {
  }

  /** `Path(p).stem`: the last component without its suffix. */
  function Stem(p: string): string {
    var name := BaseName(p);
    var i := LastIndex(name, '.');
    if 0 < i < |name| - 1 then name[..i] else name
  }

  lemma StemSuffix(p: string)
    ensures Stem(p) + Suffix(p) == BaseName(p)
  {
  }

  /** The first half of `os.path.splitext(p)`: `p` without the extension of
      its last component, where leading dots of that component never start an
      extension. */
  function SplitExtRoot(p: string): string {
    var sep := LastIndex(p, '/');
    var dot := LastIndex(p, '.');
    if dot > sep && exists k :: sep < k < dot && p[k] != '.' then p[..dot] else p
  }

  // ----- pathlib's parsing of a relative path -----

  /** A component pathlib keeps: neither empty nor `.`, and without a separator. */
  predicate IsComponent(c: string) {
    c != "" && c != "." && '/' !in c
  }

  /** A piece between two separators, kept when it is a component. */
  function Kept(piece: string): seq<string> {
    if piece == "" || piece == "." then [] else [piece]
  }

  /** The components of `piece + p`, where `piece` is the part of the
      current piece already read. */
  function Parse(p: string, piece: string): seq<string> {
    if p == [] then Kept(piece)
    else if p[0] == '/' then Kept(piece) + Parse(p[1..], "")
    else Parse(p[1..], piece + [p[0]])
  }

  /** The parts pathlib parses out of a relative path: the pieces between
      separators, with the empty pieces of a doubled or trailing `/` and the
      `.` pieces dropped. */
  function Components(p: string): seq<string> {
    Parse(p, "")
  }

  /** Each component after a separator. */
  function Joined(cs: seq<string>): string {
    if cs == [] then "" else "/" + cs[0] + Joined(cs[1..])
  }

  /** `str(Path(base) / rel)` for a relative `rel`: `base`, then each
      component of `rel` after one separator. */
  function Under(base: string, rel: string): string {
    base + Joined(Components(rel))
  }

  lemma {:induction false} ParseAreComponents(p: string, piece: string)
    requires '/' !in piece
    ensures forall i :: 0 <= i < |Parse(p, piece)| ==> IsComponent(Parse(p, piece)[i])
  {
    if p != [] {
      if p[0] == '/' {
        ParseAreComponents(p[1..], "");
      } else {
        ParseAreComponents(p[1..], piece + [p[0]]);
      }
    }
  }

  /** Every part parsed is a component. */
  lemma ComponentsAreComponents(p: string)
    ensures forall i :: 0 <= i < |Components(p)| ==> IsComponent(Components(p)[i])
  {
    ParseAreComponents(p, "");
  }

  lemma {:induction false} ParseSplit(a: string, b: string, piece: string)
    ensures Parse(a + "/" + b, piece) == Parse(a, piece) + Parse(b, "")
  {
    var p := a + "/" + b;
    if a == [] {
      assert p[0] == '/' && p[1..] == b;
    } else {
      assert p[0] == a[0];
      assert p[1..] == a[1..] + "/" + b;
      if a[0] == '/' {
        ParseSplit(a[1..], b, "");
      } else {
        ParseSplit(a[1..], b, piece + [a[0]]);
      }
    }
  }

  /** Splitting at any one separator: the components of `a/b` are those of
      `a` followed by those of `b`. */
  lemma ComponentsSplit(a: string, b: string)
    ensures Components(a + "/" + b) == Components(a) + Components(b)
  {
    ParseSplit(a, b, "");
  }

  lemma {:induction false} ParseWithinPiece(a: string, piece: string)
    requires '/' !in a
    ensures Parse(a, piece) == Kept(piece + a)
  {
    if a == [] {
      assert piece + a == piece;
    } else {
      assert a[0] in a;
      assert forall c :: c in a[1..] ==> c in a;
      ParseWithinPiece(a[1..], piece + [a[0]]);
      assert piece + [a[0]] + a[1..] == piece + a;
    }
  }

  /** A single component parses as itself. */
  lemma ComponentsOfOne(c: string)
    requires IsComponent(c)
    ensures Components(c) == [c]
  {
    ParseWithinPiece(c, "");
    assert "" + c == c;
  }

  /** A doubled separator and a `.` component change nothing. */
  lemma CollapsedPieces(a: string, b: string)
    ensures Components(a + "//" + b) == Components(a + "/" + b)
    ensures Components(a + "/./" + b) == Components(a + "/" + b)
  {
    ComponentsSplit(a, "/" + b);
    ComponentsSplit("", b);
    assert "" + "/" + b == "/" + b;
    assert a + "/" + ("/" + b) == a + "//" + b;
    ComponentsSplit(a, "./" + b);
    ComponentsSplit(".", b);
    assert "." + "/" + b == "./" + b;
    assert a + "/" + ("./" + b) == a + "/./" + b;
    ComponentsSplit(a, b);
  }

  /** Parsing a path made of components separated by single slashes gives
      those components back. */
  lemma {:induction false} ComponentsJoined(cs: seq<string>)
    requires cs != []
    requires forall i :: 0 <= i < |cs| ==> IsComponent(cs[i])
    ensures Components(Joined(cs)[1..]) == cs
  {
    var p := Joined(cs)[1..];
    assert p == cs[0] + Joined(cs[1..]);
    if |cs| == 1 {
      assert p == cs[0];
      ComponentsOfOne(cs[0]);
    } else {
      var rest := Joined(cs[1..])[1..];
      assert Joined(cs[1..]) == "/" + rest;
      assert p == cs[0] + "/" + rest;
      ComponentsSplit(cs[0], rest);
      ComponentsOfOne(cs[0]);
      ComponentsJoined(cs[1..]);
    }
  }

  /** A path that is already in pathlib's form is joined unchanged. */
  lemma UnderClean(base: string, cs: seq<string>, rel: string)
    requires cs != [] && Joined(cs) == "/" + rel
    requires forall i :: 0 <= i < |cs| ==> IsComponent(cs[i])
    ensures Under(base, rel) == base + "/" + rel
  {
    ComponentsJoined(cs);
    assert ("/" + rel)[1..] == rel;
  }

  /** Two components joined under `base`, each after one separator. */
  lemma UnderTwo(base: string, a: string, b: string)
    requires IsComponent(a) && IsComponent(b)
    ensures Under(base, a + "/" + b) == base + "/" + a + "/" + b
  {
    ComponentsSplit(a, b);
    ComponentsOfOne(a);
    ComponentsOfOne(b);
    assert Joined([b]) == "/" + b by {
      assert [b][1..] == [];
    }
    assert Joined([a, b]) == "/" + a + Joined([b]) by {
      assert [a, b][1..] == [b];
    }
  }

  lemma {:induction false} JoinedAppend(a: seq<string>, b: seq<string>)
    ensures Joined(a + b) == Joined(a) + Joined(b)
  {
    if a != [] {
      assert (a + b)[1..] == a[1..] + b;
      JoinedAppend(a[1..], b);
    } else {
      assert a + b == b;
    }
  }

  /** A piece made of `piece` and then a component `e` is a component. */
  lemma PieceWithEnding(piece: string, e: string)
    requires '/' !in piece && IsComponent(e)
    ensures IsComponent(piece + e) && EndsWith(piece + e, e)
  {
    assert forall k :: 0 <= k < |piece + e| ==> (piece + e)[k] in piece || (piece + e)[k] in e;
    assert (piece + e)[|piece|..] == e;
    if piece == "" {
      assert piece + e == e;
    } else {
      assert |piece + e| >= 2;
    }
  }

  /** Parsing text that ends with a component `e` yields at least one part,
      and the last part ends with `e`. */
  lemma {:induction false} ParseEnding(p: string, piece: string, e: string)
    requires '/' !in piece && IsComponent(e)
    ensures Parse(p + e, piece) != []
    ensures EndsWith(Parse(p + e, piece)[|Parse(p + e, piece)| - 1], e)
  {
    if p == [] {
      assert p + e == e;
      ParseWithinPiece(e, piece);
      PieceWithEnding(piece, e);
    } else {
      assert (p + e)[0] == p[0];
      assert (p + e)[1..] == p[1..] + e;
      if p[0] == '/' {
        ParseEnding(p[1..], "", e);
      } else {
        assert forall c :: c in piece + [p[0]] ==> c in piece || c == p[0];
        ParseEnding(p[1..], piece + [p[0]], e);
      }
    }
  }

  lemma JoinedSnoc(init: seq<string>, last: string)
    ensures Joined(init + [last]) == Joined(init) + "/" + last
    ensures StartsWith(Joined(init + [last]), "/")
  {
    JoinedAppend(init, [last]);
    assert Joined([last]) == "/" + last + Joined([]);
    if init != [] {
      assert Joined(init) == "/" + (init[0] + Joined(init[1..]));
    }
  }

  lemma EndsWithAppend(x: string, y: string, e: string)
    requires EndsWith(y, e)
    ensures EndsWith(x + y, e)
  {
    assert (x + y)[|x + y| - |e|..] == y[|y| - |e|..];
  }

  /** Joining a path that ends with a component `e` (a file extension)
      yields a child of `base` that ends with `e`. */
  lemma UnderKeepsEnding(base: string, x: string, e: string)
    requires IsComponent(e)
    ensures StartsWith(Under(base, x + e), base + "/")
    ensures EndsWith(Under(base, x + e), e)
  {
    var cs := Components(x + e);
    ParseEnding(x, "", e);
    var n := |cs| - 1;
    assert cs == cs[..n] + [cs[n]];
    JoinedSnoc(cs[..n], cs[n]);
    var u := Under(base, x + e);
    assert u == (base + Joined(cs[..n]) + "/") + cs[n];
    EndsWithAppend(base + Joined(cs[..n]) + "/", cs[n], e);
    assert u[..|base| + 1] == base + "/";
  }
}
