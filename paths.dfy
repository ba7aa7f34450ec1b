/**
 * `getBasePath` and the article-route template of the hotkey hook
 * (src/hooks/useHotkeys.js).
 *
 * The current route's pathname is reduced to a "base path" (the feed, the
 * category or the root the reader is browsing), and article routes are built
 * by appending "/article/<id>" to it.  Strings are sequences of UTF-16 code
 * units in the source; here they are `seq<char>`.
 */
module Paths {
  import opened Wrappers

  const ArticleSegment: string := "/article/"
  const FeedPrefix: string := "/feed/"
  const CategoryPrefix: string := "/category/"
  const Root: string := "/"

  /** JavaScript's `s.startsWith(prefix)`. */
  predicate StartsWith(s: string, prefix: string) {
    prefix <= s
  }

  /** JavaScript's `s.endsWith(suffix)`. */
  predicate EndsWith(s: string, suffix: string) {
    |suffix| <= |s| && s[|s| - |suffix|..] == suffix
  }

  /** `pat` occurs in `s` starting at position `i`. */
  predicate OccursAt(s: string, pat: string, i: nat) {
    i + |pat| <= |s| && s[i..i + |pat|] == pat
  }

  /** The first position at or after `from` where `pat` occurs in `s`. */
  function IndexOfFrom(s: string, pat: string, from: nat): (r: Option<nat>)
    decreases |s| - from
    ensures r.Some? ==> from <= r.value && OccursAt(s, pat, r.value)
    ensures forall j: nat :: from <= j && (r.None? || j < r.value) ==> !OccursAt(s, pat, j)
  {
    if from + |pat| > |s| then None
    else if s[from..from + |pat|] == pat then Some(from)
    else IndexOfFrom(s, pat, from + 1)
  }

  /** JavaScript's `s.indexOf(pat)`, with -1 written as None. */
  function IndexOf(s: string, pat: string): (r: Option<nat>)
    ensures r.Some? ==> OccursAt(s, pat, r.value)
    ensures r.Some? ==> forall j: nat :: j < r.value ==> !OccursAt(s, pat, j)
    ensures r.None? <==> forall j: nat :: !OccursAt(s, pat, j)
  {
    IndexOfFrom(s, pat, 0)
  }

  /** JavaScript's `s.includes(pat)`. */
  predicate Includes(s: string, pat: string) {
    IndexOf(s, pat).Some?
  }

  /**
   * JavaScript's `s.split(sep)[0]` for a non-empty separator: everything
   * before the first occurrence of `sep`, or all of `s` when there is none.
   */
  function SplitHead(s: string, sep: string): (r: string)
    requires sep != ""
    ensures StartsWith(s, r)
    ensures !Includes(r, sep)
    ensures Includes(s, sep) ==> OccursAt(s, sep, |r|)
    ensures Includes(s, sep) ==> forall j: nat :: j < |r| ==> !OccursAt(s, sep, j)
    ensures !Includes(s, sep) ==> r == s
  {
    match IndexOf(s, sep)
    case None => s
    case Some(i) =>
      NoEarlierOccurrence(s, sep, i);
      s[..i]
  }

  /** A prefix that ends before the first occurrence of `pat` does not contain `pat`. */
  lemma NoEarlierOccurrence(s: string, pat: string, i: nat)
    requires i <= |s|
    requires forall j: nat :: j < i ==> !OccursAt(s, pat, j)
    requires pat != ""
    ensures !Includes(s[..i], pat)
  {
    if Includes(s[..i], pat) {
      var j := IndexOf(s[..i], pat).value;
      assert s[..i][j..j + |pat|] == s[j..j + |pat|];
      assert OccursAt(s, pat, j);
    }
  }

  /**
   * `getBasePath`: the container path the reader is browsing, with any
   * article part removed.  The feed and category branches, and the final
   * default branch, all keep the pathname; only "/" becomes "".
   */
  function BasePath(pathname: string): (r: string)
    ensures StartsWith(pathname, r)
    ensures !Includes(r, ArticleSegment)
    ensures Includes(pathname, ArticleSegment) ==> OccursAt(pathname, ArticleSegment, |r|)
    ensures Includes(pathname, ArticleSegment) ==>
              forall j: nat :: j < |r| ==> !OccursAt(pathname, ArticleSegment, j)
    ensures !Includes(pathname, ArticleSegment) ==> r == (if pathname == Root then "" else pathname)
  {
    if Includes(pathname, ArticleSegment) then SplitHead(pathname, ArticleSegment)
    else if StartsWith(pathname, FeedPrefix) then pathname
    else if StartsWith(pathname, CategoryPrefix) then pathname
    else if pathname == Root then ""
    else pathname
  }

  function Digit(d: nat): (c: char)
    requires d < 10
    ensures '0' <= c <= '9'
  {
    ('0' as int + d) as char
  }

  /** The value of a decimal digit character. */
  function DigitValue(c: char): (v: nat)
    requires '0' <= c <= '9'
    ensures v < 10
  {
    c as int - '0' as int
  }

  /** The number a string of decimal digits denotes, most significant digit first. */
  function DecimalValue(s: string): nat
    requires forall i :: 0 <= i < |s| ==> '0' <= s[i] <= '9'
  {
    if s == [] then 0 else 10 * DecimalValue(s[..|s| - 1]) + DigitValue(s[|s| - 1])
  }

  /** Decimal rendering of a natural number, as a template literal prints it. */
  function NatText(n: nat): (r: string)
    ensures |r| > 0
    ensures forall i :: 0 <= i < |r| ==> '0' <= r[i] <= '9'
    ensures DecimalValue(r) == n
    ensures r[0] != '0' || r == "0"
  {
    if n < 10 then [Digit(n)]
    else
      var t := NatText(n / 10);
      var r := t + [Digit(n % 10)];
      assert r[..|r| - 1] == t;
      r
  }

  /** `${id}` for an integer article id: a '-' for negative ids, then the digits of its magnitude. */
  function IdText(id: int): (r: string)
    ensures |r| > 0
    ensures (r[0] == '-') == (id < 0)
    ensures forall i :: (if id < 0 then 1 else 0) <= i < |r| ==> '0' <= r[i] <= '9'
    ensures id >= 0 ==> DecimalValue(r) == id && (r[0] != '0' || r == "0")
    ensures id < 0 ==> |r| >= 2 && DecimalValue(r[1..]) == -id && r[1] != '0'
  {
    if id < 0 then
      var r := "-" + NatText(-id);
      assert r[1..] == NatText(-id);
      r
    else NatText(id)
  }

  /** Different article ids give different path segments. */
  lemma IdTextInjective(a: int, b: int)
    requires IdText(a) == IdText(b)
    ensures a == b
  {
    if a < 0 {
      assert b < 0;
      assert IdText(a)[1..] == IdText(b)[1..];
    }
  }

  /**
   * The target of article navigation: `basePath ? `${basePath}/article/${id}`
   * : `/article/${id}``.  Both branches build the same string, because an
   * empty base path contributes nothing.
   */
  function ArticlePath(basePath: string, id: int): (r: string)
    ensures r == basePath + ArticleSegment + IdText(id)
  {
    if basePath != "" then basePath + ArticleSegment + IdText(id)
    else ArticleSegment + IdText(id)
  }

  /**
   * An article route starts with its base path, has "/article/" right after
   * it, and ends in "/article/<id>".
   */
  lemma ArticlePathShape(basePath: string, id: int)
    ensures StartsWith(ArticlePath(basePath, id), basePath)
    ensures OccursAt(ArticlePath(basePath, id), ArticleSegment, |basePath|)
    ensures ArticlePath(basePath, id)[|basePath| + |ArticleSegment|..] == IdText(id)
    ensures EndsWith(ArticlePath(basePath, id), ArticleSegment + IdText(id))
  {
    var s := ArticlePath(basePath, id);
    assert s[..|basePath|] == basePath;
    assert s[|basePath|..|basePath| + |ArticleSegment|] == ArticleSegment;
  }

  /** Distinct articles under one base path get distinct routes. */
  lemma ArticlePathInjective(basePath: string, a: int, b: int)
    requires ArticlePath(basePath, a) == ArticlePath(basePath, b)
    ensures a == b
  {
    var n := |basePath| + |ArticleSegment|;
    ArticlePathShape(basePath, a);
    ArticlePathShape(basePath, b);
    assert ArticlePath(basePath, a)[n..] == ArticlePath(basePath, b)[n..];
    IdTextInjective(a, b);
  }

  /** The Escape target: `basePath || "/"`. */
  function EscapeTarget(pathname: string): (r: string)
    ensures r != ""
    ensures !Includes(r, ArticleSegment)
    ensures r == Root || (StartsWith(pathname, r) && r == BasePath(pathname))
    ensures r == Root <==> BasePath(pathname) == "" || BasePath(pathname) == Root
  {
    var basePath := BasePath(pathname);
    if basePath != "" then basePath else Root
  }

  /** "/article/" has no period other than 8: a shift by d in 1..7 puts a letter under its first '/'. */
  lemma SegmentSelfOverlap(d: nat)
    requires 1 <= d < |ArticleSegment|
    requires ArticleSegment[d..] == ArticleSegment[..|ArticleSegment| - d]
    ensures d == 8
  {
    assert ArticleSegment[d..][0] == ArticleSegment[d];
    assert ArticleSegment[d] == '/';
  }

  /** An occurrence of `pat` lying wholly inside `b` is an occurrence in `b`. */
  lemma OccursInsidePrefix(b: string, t: string, pat: string, i: nat)
    requires OccursAt(b + t, pat, i)
    requires i + |pat| <= |b|
    ensures OccursAt(b, pat, i)
  {
    assert b[i..i + |pat|] == (b + t)[i..i + |pat|];
  }

  /** An article segment that straddles the end of `b` forces `b` to end in "/article". */
  lemma StraddlingSegment(b: string, t: string, i: nat)
    requires OccursAt(b + ArticleSegment + t, ArticleSegment, i)
    requires i < |b| < i + |ArticleSegment|
    ensures EndsWith(b, "/article")
  {
    var s := b + ArticleSegment + t;
    var n := |ArticleSegment|;
    var d := |b| - i;
    assert s[i..i + n] == ArticleSegment;
    assert ArticleSegment[d..] == s[i..i + n][d..] == s[|b|..i + n];
    assert s[|b|..i + n] == ArticleSegment[..n - d];
    SegmentSelfOverlap(d);
    assert b[i..] == s[i..i + n][..8] == ArticleSegment[..8];
  }

  /**
   * Appending an article segment to a base path and resolving again gives
   * the base path back, provided the base path has no article segment of its
   * own and does not end in "/article" (which would let the appended "/"
   * complete an earlier "/article/").
   */
  lemma BasePathOfArticlePath(basePath: string, id: int)
    requires !Includes(basePath, ArticleSegment)
    requires !EndsWith(basePath, "/article")
    ensures BasePath(ArticlePath(basePath, id)) == basePath
  {
    var t := IdText(id);
    var s := ArticlePath(basePath, id);
    assert s == basePath + ArticleSegment + t;
    var r := BasePath(s);
    var i := |r|;
    ArticlePathShape(basePath, id);
    assert OccursAt(s, ArticleSegment, |basePath|);
    assert i <= |basePath|;
    if i < |basePath| {
      assert OccursAt(s, ArticleSegment, i);
      if i + |ArticleSegment| <= |basePath| {
        assert s == basePath + (ArticleSegment + t);
        OccursInsidePrefix(basePath, ArticleSegment + t, ArticleSegment, i);
      } else {
        StraddlingSegment(basePath, t, i);
      }
      assert false;
    }
    assert r == s[..i];
  }

  /** A base path cut before the first article segment never ends in "/article". */
  lemma BasePathNoArticleSuffix(pathname: string)
    requires Includes(pathname, ArticleSegment)
    ensures !EndsWith(BasePath(pathname), "/article")
  {
    var r := BasePath(pathname);
    if EndsWith(r, "/article") {
      var i := |r|;
      assert pathname[i - 8..i] == r[i - 8..];
      EarlierSegment(pathname, i);
      assert false;
    }
  }

  /** "/article" right before an occurrence of "/article/" makes an occurrence 8 earlier. */
  lemma EarlierSegment(s: string, i: nat)
    requires 8 <= i && OccursAt(s, ArticleSegment, i)
    requires s[i - 8..i] == "/article"
    ensures OccursAt(s, ArticleSegment, i - 8)
  {
    assert s[i..i + 9][0] == s[i];
    assert s[i - 8..i + 1] == s[i - 8..i] + [s[i]];
  }

  /**
   * Moving between articles keeps the container context: the base path of an
   * article route built from the current base path is the current base path.
   * The exception is a pathname that is not an article route and ends in
   * "/article" (see BasePathContextLost).
   */
  lemma BasePathPreserved(pathname: string, id: int)
    requires Includes(pathname, ArticleSegment) || !EndsWith(pathname, "/article")
    ensures BasePath(ArticlePath(BasePath(pathname), id)) == BasePath(pathname)
  {
    var b := BasePath(pathname);
    if Includes(pathname, ArticleSegment) {
      BasePathNoArticleSuffix(pathname);
    } else if pathname == Root {
      assert b == "";
    }
    BasePathOfArticlePath(b, id);
  }

  /**
   * The converse of BasePathPreserved: a pathname that is not an article
   * route and ends in "/article" always loses its context.
   */
  lemma ContextLostAlways(pathname: string, id: int)
    requires !Includes(pathname, ArticleSegment)
    requires EndsWith(pathname, "/article")
    ensures BasePath(ArticlePath(BasePath(pathname), id)) != BasePath(pathname)
  {
    assert pathname != Root;
    ArticlePathShape(pathname, id);
    EarlierSegment(ArticlePath(pathname, id), |pathname|);
  }

  lemma FeedArticleHasNoSegment()
    ensures !Includes("/feed/article", ArticleSegment)
  {
    var p := "/feed/article";
    assert p[0..9][1] != ArticleSegment[1];
    assert p[1..10][0] != ArticleSegment[0];
    assert p[2..11][0] != ArticleSegment[0];
    assert p[3..12][0] != ArticleSegment[0];
    assert p[4..13][0] != ArticleSegment[0];
  }

  lemma FirstSegmentAfterFeed()
    ensures IndexOf("/feed/article/article/5", ArticleSegment) == Some(5)
  {
    var s := "/feed/article/article/5";
    assert s[0..9][1] != ArticleSegment[1];
    assert s[1..10][0] != ArticleSegment[0];
    assert s[2..11][0] != ArticleSegment[0];
    assert s[3..12][0] != ArticleSegment[0];
    assert s[4..13][0] != ArticleSegment[0];
    assert s[5] == '/' && s[6] == 'a' && s[7] == 'r' && s[8] == 't' && s[9] == 'i';
    assert s[10] == 'c' && s[11] == 'l' && s[12] == 'e' && s[13] == '/';
    assert s[5..14] == ArticleSegment;
  }

  /** The exception: a feed route whose id is literally "article" loses its context. */
  lemma BasePathContextLost()
    ensures BasePath(ArticlePath(BasePath("/feed/article"), 5)) == "/feed"
  {
    FeedArticleHasNoSegment();
    assert BasePath("/feed/article") == "/feed/article";
    assert ArticlePath("/feed/article", 5) == "/feed/article/article/5";
    FirstSegmentAfterFeed();
  }

  lemma CategoryHasNoSegment()
    ensures !Includes("/category/3", ArticleSegment)
  {
    var c := "/category/3";
    assert c[0..9][1] != ArticleSegment[1];
    assert c[1..10][0] != ArticleSegment[0];
    assert c[2..11][0] != ArticleSegment[0];
  }

  /** Sample pathnames: two article routes, a category route and the root. */
  lemma BasePathExamples()
    ensures BasePath("/feed/7/article/99") == "/feed/7"
    ensures BasePath("/category/3") == "/category/3"
    ensures BasePath("/") == ""
    ensures BasePath("/article/5") == ""
  {
    assert NatText(99) == "99";
    assert ArticlePath("/feed/7", 99) == "/feed/7/article/99";
    BasePathOfArticlePath("/feed/7", 99);
    assert ArticlePath("", 5) == "/article/5";
    BasePathOfArticlePath("", 5);
    CategoryHasNoSegment();
  }
}
