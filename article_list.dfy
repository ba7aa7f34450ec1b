/**
 * `currentIndex` of the hotkey hook (src/hooks/useHotkeys.js): the filtered
 * article list as a read-only snapshot and the position of the active
 * article in it.
 */
module ArticleList {
  import opened Wrappers

  /**
   * The fields of an article the dispatcher reads.  `id` is None when the
   * entry has no id (`undefined`); ids are numbers in the application.
   */
  datatype Article = Article(id: Option<int>, status: string, url: string)

  const ReadStatus: string := "read"

  /** JavaScript truthiness of `article?.id`: present and not 0. */
  predicate HasId(a: Article) {
    a.id.Some? && a.id.value != 0
  }

  /** `$activeArticle?.id`: undefined when there is no active article. */
  function ActiveId(active: Option<Article>): Option<int> {
    if active.Some? then active.value.id else None
  }

  /** The first position at or after `from` whose id is `probe`, or -1. */
  function FindIndexFrom(articles: seq<Article>, probe: Option<int>, from: nat): (r: int)
    requires from <= |articles|
    decreases |articles| - from
    ensures r == -1 || from <= r < |articles|
    ensures r != -1 ==> articles[r].id == probe
    ensures forall t :: from <= t < |articles| && (r == -1 || t < r) ==> articles[t].id != probe
  {
    if from == |articles| then -1
    else if articles[from].id == probe then from
    else FindIndexFrom(articles, probe, from + 1)
  }

  /**
   * `articles.findIndex((a) => a.id === probe)`.  Strict equality of two
   * `undefined` values holds, so a probe of None finds the first entry that
   * has no id.
   */
  function FindIndex(articles: seq<Article>, probe: Option<int>): (r: int)
    ensures -1 <= r < |articles|
    ensures r != -1 ==> articles[r].id == probe
    ensures r != -1 ==> forall t :: 0 <= t < r ==> articles[t].id != probe
    ensures r == -1 <==> forall t :: 0 <= t < |articles| ==> articles[t].id != probe
  {
    FindIndexFrom(articles, probe, 0)
  }

  /** `currentIndex`: the active article's position in the filtered list, or -1. */
  function CurrentIndex(articles: seq<Article>, active: Option<Article>): (r: int)
    ensures -1 <= r < |articles|
    ensures r != -1 ==> articles[r].id == ActiveId(active)
    ensures r != -1 ==> forall t :: 0 <= t < r ==> articles[t].id != ActiveId(active)
    ensures r == -1 <==> forall t :: 0 <= t < |articles| ==> articles[t].id != ActiveId(active)
  {
    FindIndex(articles, ActiveId(active))
  }

  /** The position of an active article that appears once in the list is that position. */
  lemma CurrentIndexOfListedArticle(articles: seq<Article>, t: nat)
    requires t < |articles|
    requires forall u :: 0 <= u < |articles| && u != t ==> articles[u].id != articles[t].id
    ensures CurrentIndex(articles, Some(articles[t])) == t
  {
  }

  /**
   * With no active article, the lookup is not "not found" as soon as some
   * entry lacks an id: `undefined === undefined`.
   */
  lemma NoActiveMatchesIdless(articles: seq<Article>, t: nat)
    requires t < |articles| && articles[t].id.None?
    ensures 0 <= CurrentIndex(articles, None) <= t
  {
  }
}
