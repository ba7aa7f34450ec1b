/**
 * `handleKeyDown` of the hotkey hook (src/hooks/useHotkeys.js) as a pure
 * decision function: one key press, seen against a snapshot of the reader's
 * state, gives whether the browser's default action is suppressed and the
 * ordered list of commands issued to the collaborators (router, article
 * store, sync engine, sidebar, modal stores).  The collaborators themselves
 * are not modelled; their calls are the effects.
 */
module Hotkeys {
  import opened Wrappers
  import opened Paths
  import opened ArticleList

  /** The element the key event targets. */
  datatype Target = Target(tagName: string, isContentEditable: bool)

  datatype KeyEvent = KeyEvent(target: Target, key: string, shiftKey: bool, ctrlKey: bool, metaKey: bool)

  /**
   * What the handler reads besides the event: the route's `articleId`
   * parameter, the filtered list, the active article, the image-gallery
   * flag and the current pathname.
   */
  datatype View = View(
    articleId: Option<string>,
    articles: seq<Article>,
    active: Option<Article>,
    imageGalleryActive: bool,
    pathname: string)

  /** One command issued to a collaborator, in the order the handler issues them. */
  datatype Effect =
    | ToggleShortcuts                      // shortcutsModalOpen.set(!shortcutsModalOpen.get())
    | ToggleAddFeed                        // addFeedModalOpen.set(!addFeedModalOpen.get())
    | OpenSearch                           // searchDialogOpen.set(true)
    | Navigate(path: string)               // navigate(path)
    | MarkStatus(article: Option<Article>) // handleMarkStatus(article)
    | ToggleStar(article: Option<Article>) // handleToggleStar(article)
    | ToggleContent(article: Option<Article>) // handleToggleContent(article)
    | OpenUrl(url: string)                 // window.open(url, "_blank")
    | Sync                                 // forceSync()
    | ClearActive                          // activeArticle.set(null)
    | SetFilter(mode: string)              // filter.set(mode)
    | LoadArticles(containerId: Option<int>, kind: string, page: int, append: bool)
    | SidebarPrev                          // navigateToPrevious()
    | SidebarNext                          // navigateToNext()
    | ToggleCategory                       // toggleCurrentCategory()
  {
    /** The effects that change one of the three modal flags. */
    predicate IsModal() {
      ToggleShortcuts? || ToggleAddFeed? || OpenSearch?
    }
  }

  /**
   * The result of one key press: whether `e.preventDefault()` was called,
   * the effects issued, and whether the handler stopped on a TypeError
   * (reading `url` of a missing active article).
   */
  datatype Outcome = Outcome(preventDefault: bool, effects: seq<Effect>, throwsTypeError: bool)

  const Ignored: Outcome := Outcome(false, [], false)

  /** Article lists reloaded after a refresh show unread articles. */
  const UnreadFilter: string := "unread"

  /** The reset that follows a refresh, in order. */
  const ResetSteps: seq<Effect> :=
    [ClearActive, SetFilter(UnreadFilter), Navigate(Root), LoadArticles(None, "feed", 1, false)]

  const RefreshEffects: seq<Effect> := [Sync] + ResetSteps

  /** The lower-cased key names of the single-key table. */
  const CommandKeys: set<string> := {"f", "j", "k", "m", "s", "r", "escape", "v", "g", "p", "n", "x"}

  /** The single keys whose default action is suppressed. */
  const PreventingKeys: set<string> := {"f", "j", "k", "r", "p", "n", "x"}

  // ---------------------------------------------------------------------
  // Key classification

  /** INPUT, TEXTAREA or an editable region: the user is typing. */
  predicate IsTextEntry(t: Target) {
    t.tagName == "INPUT" || t.tagName == "TEXTAREA" || t.isContentEditable
  }

  predicate IsShortcutsCombo(ev: KeyEvent) {
    ev.key == "?" && ev.shiftKey
  }

  predicate IsAddFeedCombo(ev: KeyEvent) {
    ev.key == "N" && ev.shiftKey
  }

  /** `String.prototype.toLowerCase` on one character, for the ASCII letters. */
  function LowerChar(c: char): (r: char)
    ensures !('A' <= r <= 'Z')
    ensures 'A' <= c <= 'Z' ==> r as int == c as int + 32
    ensures !('A' <= c <= 'Z') ==> r == c
  {
    if 'A' <= c <= 'Z' then (c as int + 32) as char else c
  }

  /** `key.toLowerCase()`, character by character. */
  function Lower(s: string): (r: string)
    ensures |r| == |s|
    ensures forall i :: 0 <= i < |s| ==> r[i] == LowerChar(s[i])
  {
    if s == [] then [] else [LowerChar(s[0])] + Lower(s[1..])
  }

  /** The cases of the `switch`, one per command key. */
  datatype Key = F | J | K | M | S | R | Escape | V | G | P | N | X {
    /** The lower-cased `e.key` of the case label. */
    function Name(): string {
      match this
      case F => "f"
      case J => "j"
      case K => "k"
      case M => "m"
      case S => "s"
      case R => "r"
      case Escape => "escape"
      case V => "v"
      case G => "g"
      case P => "p"
      case N => "n"
      case X => "x"
    }
  }

  /** The case label a lower-cased key selects, or None for the `default` case. */
  function KeyOf(name: string): Option<Key> {
    if name == "f" then Some(F)
    else if name == "j" then Some(J)
    else if name == "k" then Some(K)
    else if name == "m" then Some(M)
    else if name == "s" then Some(S)
    else if name == "r" then Some(R)
    else if name == "escape" then Some(Escape)
    else if name == "v" then Some(V)
    else if name == "g" then Some(G)
    else if name == "p" then Some(P)
    else if name == "n" then Some(N)
    else if name == "x" then Some(X)
    else None
  }

  /** Every case label is selected by its own name. */
  lemma KeyOfName(k: Key)
    ensures KeyOf(k.Name()) == Some(k)
  {
    match k
    case F =>
    case J =>
    case K =>
    case M =>
    case S =>
    case R =>
    case Escape =>
    case V =>
    case G =>
    case P =>
    case N =>
    case X =>
  }

  /** A name selects a case label only if it is that label's name; the others fall to `default`. */
  lemma NameOfKey(name: string)
    ensures KeyOf(name).Some? ==> KeyOf(name).value.Name() == name
    ensures KeyOf(name).None? <==> name !in CommandKeys
  {
  }

  /** The key reaches case `k` of the `switch`. */
  predicate Pressed(ev: KeyEvent, k: Key) {
    !IsTextEntry(ev.target) && !IsShortcutsCombo(ev) && !IsAddFeedCombo(ev) && KeyOf(Lower(ev.key)) == Some(k)
  }

  /** `articleId` from the route parameters is truthy. */
  predicate HasArticleParam(v: View) {
    v.articleId.Some? && v.articleId.value != ""
  }

  /** `currentIndex` of the view. */
  function Position(v: View): (r: int)
    ensures -1 <= r < |v.articles|
  {
    CurrentIndex(v.articles, v.active)
  }

  // ---------------------------------------------------------------------
  // Command handlers

  /**
   * The common tail of `j` and `k`: nothing for an entry without id;
   * otherwise navigate to its route and then, unless it is read, mark it.
   */
  function OpenArticle(a: Article, pathname: string): (r: seq<Effect>)
    ensures r == [] <==> !HasId(a)
    ensures r != [] ==> r[0] == Navigate(ArticlePath(BasePath(pathname), a.id.value))
    ensures MarkStatus(Some(a)) in r <==> HasId(a) && a.status != ReadStatus
    ensures |r| <= 2
    ensures forall e :: e in r ==> e.Navigate? || e.MarkStatus?
  {
    if !HasId(a) then []
    else
      [Navigate(ArticlePath(BasePath(pathname), a.id.value))]
      + (if a.status != ReadStatus then [MarkStatus(Some(a))] else [])
  }

  /** `j`: the first entry when no article is open, else the entry after the current one. */
  function NextEffects(v: View): (r: seq<Effect>)
    ensures forall e :: e in r ==> e.Navigate? || e.MarkStatus?
  {
    if !HasArticleParam(v) then
      if |v.articles| == 0 then [] else OpenArticle(v.articles[0], v.pathname)
    else if Position(v) < |v.articles| - 1 then
      OpenArticle(v.articles[Position(v) + 1], v.pathname)
    else []
  }

  /** `k`: the entry before the current one, when there is a current one past the first. */
  function PrevEffects(v: View): (r: seq<Effect>)
    ensures forall e :: e in r ==> e.Navigate? || e.MarkStatus?
  {
    if Position(v) > 0 then OpenArticle(v.articles[Position(v) - 1], v.pathname) else []
  }

  /** The cases of `switch (e.key.toLowerCase())`. */
  function Command(k: Key, ev: KeyEvent, v: View): Outcome {
    match k
    case F => Outcome(true, [OpenSearch], false)
    case J => Outcome(true, NextEffects(v), false)
    case K => Outcome(true, PrevEffects(v), false)
    case M => Outcome(false, if HasArticleParam(v) then [MarkStatus(v.active)] else [], false)
    case S => Outcome(false, if HasArticleParam(v) then [ToggleStar(v.active)] else [], false)
    case R => Outcome(true, if !ev.ctrlKey && !ev.metaKey then RefreshEffects else [], false)
    case Escape =>
      if v.imageGalleryActive then Ignored
      else Outcome(false, [Navigate(EscapeTarget(v.pathname))], false)
    case V =>
      if !HasArticleParam(v) then Ignored
      else if v.active.None? then Outcome(false, [], true)
      else Outcome(false, [OpenUrl(v.active.value.url)], false)
    case G => Outcome(false, if HasArticleParam(v) then [ToggleContent(v.active)] else [], false)
    case P => Outcome(true, [SidebarPrev], false)
    case N => Outcome(true, [SidebarNext], false)
    case X => Outcome(true, [ToggleCategory], false)
  }

  /** `handleKeyDown`: text entry first, then the two shift combos, then the `switch`. */
  function KeyDown(ev: KeyEvent, v: View): Outcome {
    if IsTextEntry(ev.target) then Ignored
    else if IsShortcutsCombo(ev) then Outcome(true, [ToggleShortcuts], false)
    else if IsAddFeedCombo(ev) then Outcome(true, [ToggleAddFeed], false)
    else match KeyOf(Lower(ev.key))
      case None => Ignored
      case Some(k) => Command(k, ev, v)
  }

  /** A press that reaches case `k` is handled by that case alone. */
  lemma PressedSelects(ev: KeyEvent, v: View, k: Key)
    requires Pressed(ev, k)
    ensures KeyDown(ev, v) == Command(k, ev, v)
  {
  }

  // ---------------------------------------------------------------------
  // Properties of the dispatcher

  /** While the user types, no command fires and the default action is kept. */
  lemma TextEntryIgnored(ev: KeyEvent, v: View)
    requires IsTextEntry(ev.target)
    ensures KeyDown(ev, v) == Ignored
  {
  }

  /** No effect of `es` changes a modal flag. */
  predicate NoModal(es: seq<Effect>) {
    forall e :: e in es ==> !e.IsModal()
  }

  /** Of the single keys, only `f` issues a modal effect, and then only that one. */
  lemma CommandModalOnlyForSearch(k: Key, ev: KeyEvent, v: View)
    ensures k == F ==> Command(k, ev, v).effects == [OpenSearch]
    ensures k != F ==> NoModal(Command(k, ev, v).effects)
  {
    match k
    case F =>
    case J =>
    case K =>
    case M =>
    case S =>
    case R => assert NoModal(RefreshEffects);
    case Escape =>
    case V =>
    case G =>
    case P =>
    case N =>
    case X =>
  }

  /**
   * The shift combos win over the table and stop there: `Shift+?` issues
   * only the shortcuts toggle and `Shift+N` only the add-feed toggle, and
   * each toggle is issued for that combo and nothing else.
   */
  lemma ModifierCombos(ev: KeyEvent, v: View)
    ensures ToggleShortcuts in KeyDown(ev, v).effects <==> !IsTextEntry(ev.target) && IsShortcutsCombo(ev)
    ensures ToggleAddFeed in KeyDown(ev, v).effects <==> !IsTextEntry(ev.target) && IsAddFeedCombo(ev)
    ensures !IsTextEntry(ev.target) && IsShortcutsCombo(ev) ==>
              KeyDown(ev, v) == Outcome(true, [ToggleShortcuts], false)
    ensures !IsTextEntry(ev.target) && IsAddFeedCombo(ev) ==>
              KeyDown(ev, v) == Outcome(true, [ToggleAddFeed], false)
  {
    if KeyOf(Lower(ev.key)).Some? {
      CommandModalOnlyForSearch(KeyOf(Lower(ev.key)).value, ev, v);
    }
  }

  /** A modal effect is always the only effect of its key press. */
  lemma ModalEffectsAlone(ev: KeyEvent, v: View)
    ensures forall e :: e in KeyDown(ev, v).effects && e.IsModal() ==> KeyDown(ev, v).effects == [e]
    ensures OpenSearch in KeyDown(ev, v).effects <==> Pressed(ev, F)
  {
    if KeyOf(Lower(ev.key)).Some? {
      CommandModalOnlyForSearch(KeyOf(Lower(ev.key)).value, ev, v);
    }
  }

  /**
   * `preventDefault` is called exactly for the two combos and the keys
   * f, j, k, r, p, n and x, whatever else holds.
   */
  lemma PreventDefaultTable(ev: KeyEvent, v: View)
    ensures KeyDown(ev, v).preventDefault <==>
              !IsTextEntry(ev.target) &&
              (IsShortcutsCombo(ev) || IsAddFeedCombo(ev) || Lower(ev.key) in PreventingKeys)
  {
    NameOfKey(Lower(ev.key));
  }

  /** Keys outside the table do nothing. */
  lemma UnmappedKeysIgnored(ev: KeyEvent, v: View)
    requires !IsShortcutsCombo(ev) && !IsAddFeedCombo(ev) && Lower(ev.key) !in CommandKeys
    ensures KeyDown(ev, v) == Ignored
  {
    NameOfKey(Lower(ev.key));
  }

  /** The list position `j` moves to: the first entry with no article open, else the next one. */
  function NextPosition(v: View): (t: int)
    ensures 0 <= t <= |v.articles|
  {
    if HasArticleParam(v) then Position(v) + 1 else 0
  }

  /** `effects` open entry `t` of the list: navigate to its route, then mark it unless read. */
  ghost predicate OpensEntry(effects: seq<Effect>, v: View, t: int) {
    0 <= t < |v.articles| && HasId(v.articles[t]) &&
    var a := v.articles[t];
    var go := Navigate(ArticlePath(BasePath(v.pathname), a.id.value));
    effects == (if a.status != ReadStatus then [go, MarkStatus(Some(a))] else [go])
  }

  /** OpenArticle on entry `t` opens entry `t`, when it has an id. */
  lemma OpenArticleOpensEntry(v: View, t: int)
    requires 0 <= t < |v.articles|
    ensures HasId(v.articles[t]) ==> OpensEntry(OpenArticle(v.articles[t], v.pathname), v, t)
  {
  }

  /**
   * `j` opens the entry at NextPosition when that position is in the list
   * and the entry has an id, and does nothing otherwise; in particular it
   * does nothing at the last position, and an unresolved position (-1) of a
   * non-empty list moves to the first entry.
   */
  lemma NextMove(ev: KeyEvent, v: View)
    requires Pressed(ev, J)
    ensures KeyDown(ev, v).preventDefault && !KeyDown(ev, v).throwsTypeError
    ensures var t := NextPosition(v);
      if t < |v.articles| && HasId(v.articles[t]) then OpensEntry(KeyDown(ev, v).effects, v, t)
      else KeyDown(ev, v).effects == []
    ensures HasArticleParam(v) && Position(v) == |v.articles| - 1 ==> KeyDown(ev, v).effects == []
    ensures HasArticleParam(v) && Position(v) == -1 && |v.articles| > 0 ==> NextPosition(v) == 0
  {
    PressedSelects(ev, v, J);
    var t := NextPosition(v);
    if t < |v.articles| {
      assert KeyDown(ev, v).effects == OpenArticle(v.articles[t], v.pathname);
      OpenArticleOpensEntry(v, t);
    }
  }

  /**
   * `k` opens the entry before the current one when the current position is
   * past the first and that entry has an id; at position 0, at -1, or for
   * an entry without id it does nothing.
   */
  lemma PrevMove(ev: KeyEvent, v: View)
    requires Pressed(ev, K)
    ensures KeyDown(ev, v).preventDefault && !KeyDown(ev, v).throwsTypeError
    ensures var t := Position(v) - 1;
      if t >= 0 && HasId(v.articles[t]) then OpensEntry(KeyDown(ev, v).effects, v, t)
      else KeyDown(ev, v).effects == []
    ensures Position(v) <= 0 ==> KeyDown(ev, v).effects == []
  {
    PressedSelects(ev, v, K);
    var t := Position(v) - 1;
    if t >= 0 {
      assert KeyDown(ev, v).effects == OpenArticle(v.articles[t], v.pathname);
      OpenArticleOpensEntry(v, t);
    }
  }

  /**
   * m, s, v and g act on the active article only when the route names one,
   * never suppress the default action, and never navigate.  `v` with an
   * article route but no active article stops on the TypeError of reading
   * its `url`.
   */
  lemma ArticleKeysNeedArticle(ev: KeyEvent, v: View, k: Key)
    requires k in {M, S, V, G} && Pressed(ev, k)
    ensures !KeyDown(ev, v).preventDefault
    ensures !HasArticleParam(v) ==> KeyDown(ev, v) == Ignored
    ensures HasArticleParam(v) && k == M ==> KeyDown(ev, v) == Outcome(false, [MarkStatus(v.active)], false)
    ensures HasArticleParam(v) && k == S ==> KeyDown(ev, v) == Outcome(false, [ToggleStar(v.active)], false)
    ensures HasArticleParam(v) && k == G ==> KeyDown(ev, v) == Outcome(false, [ToggleContent(v.active)], false)
    ensures HasArticleParam(v) && k == V ==>
              KeyDown(ev, v) == if v.active.Some? then Outcome(false, [OpenUrl(v.active.value.url)], false)
                                else Outcome(false, [], true)
  {
    PressedSelects(ev, v, k);
  }

  /**
   * Escape does nothing while the image gallery is open; otherwise it
   * navigates to the base path, or to "/" when that is empty, which is
   * never an article route.
   */
  lemma EscapeCloses(ev: KeyEvent, v: View)
    requires Pressed(ev, Escape)
    ensures v.imageGalleryActive ==> KeyDown(ev, v) == Ignored
    ensures !v.imageGalleryActive ==>
              && KeyDown(ev, v) == Outcome(false, [Navigate(EscapeTarget(v.pathname))], false)
              && !Includes(EscapeTarget(v.pathname), ArticleSegment)
              && EscapeTarget(v.pathname) == (if BasePath(v.pathname) == "" then Root else BasePath(v.pathname))
  {
    PressedSelects(ev, v, Escape);
  }

  /**
   * `r` always suppresses the default action; with ctrl or meta held it
   * does nothing more, otherwise it syncs and then resets the view in the
   * fixed order: clear the active article, filter unread, go to the root,
   * reload the first page of the root list.
   */
  lemma RefreshKey(ev: KeyEvent, v: View)
    requires Pressed(ev, R)
    ensures KeyDown(ev, v).preventDefault && !KeyDown(ev, v).throwsTypeError
    ensures ev.ctrlKey || ev.metaKey ==> KeyDown(ev, v).effects == []
    ensures !ev.ctrlKey && !ev.metaKey ==>
              KeyDown(ev, v).effects ==
              [Sync, ClearActive, SetFilter("unread"), Navigate("/"), LoadArticles(None, "feed", 1, false)]
  {
    PressedSelects(ev, v, R);
  }

  /**
   * `p`, `n` and `x` suppress the default action and issue exactly one
   * sidebar command: the previous feed or category, the next one, or
   * toggling the current category open.
   */
  lemma SidebarKeys(ev: KeyEvent, v: View, k: Key)
    requires k in {P, N, X} && Pressed(ev, k)
    ensures KeyDown(ev, v) ==
              Outcome(true, [if k == P then SidebarPrev else if k == N then SidebarNext else ToggleCategory], false)
  {
    PressedSelects(ev, v, k);
  }

  /** `p` is the root, the Escape target, or the route of a listed entry that has an id. */
  ghost predicate AllowedTarget(v: View, p: string) {
    || p == Root
    || p == EscapeTarget(v.pathname)
    || exists t :: 0 <= t < |v.articles| && HasId(v.articles[t]) &&
                  p == ArticlePath(BasePath(v.pathname), v.articles[t].id.value)
  }

  /** Opening entry `t` navigates only to that entry's route. */
  lemma OpensEntryTarget(effects: seq<Effect>, v: View, t: int, p: string)
    requires OpensEntry(effects, v, t)
    requires Navigate(p) in effects
    ensures AllowedTarget(v, p)
  {
    assert p == ArticlePath(BasePath(v.pathname), v.articles[t].id.value);
  }

  /** The same for one case of the `switch`. */
  lemma CommandTargets(ev: KeyEvent, v: View, k: Key, p: string)
    requires Pressed(ev, k)
    requires Navigate(p) in KeyDown(ev, v).effects
    ensures AllowedTarget(v, p)
  {
    PressedSelects(ev, v, k);
    match k
    case J =>
      NextMove(ev, v);
      OpensEntryTarget(KeyDown(ev, v).effects, v, NextPosition(v), p);
    case K =>
      PrevMove(ev, v);
      OpensEntryTarget(KeyDown(ev, v).effects, v, Position(v) - 1, p);
    case R =>
      assert Navigate(p) in RefreshEffects;
    case Escape =>
    case F =>
    case M =>
    case S =>
    case V =>
    case G =>
    case P =>
    case N =>
    case X =>
  }

  /**
   * Every navigation goes to the root, to the Escape target, or to the
   * route of an entry of the list that has an id, under the current base
   * path.
   */
  lemma NavigationTargets(ev: KeyEvent, v: View, p: string)
    requires Navigate(p) in KeyDown(ev, v).effects
    ensures AllowedTarget(v, p)
  {
    var key := KeyOf(Lower(ev.key));
    if !IsTextEntry(ev.target) && !IsShortcutsCombo(ev) && !IsAddFeedCombo(ev) && key.Some? {
      CommandTargets(ev, v, key.value, p);
    }
  }

  /**
   * Moving with `j` or `k` keeps the feed or category being browsed: the new
   * route's base path is the current one (for pathnames that are article
   * routes or do not end in "/article").
   */
  lemma MovesKeepContext(ev: KeyEvent, v: View, p: string)
    requires Pressed(ev, J) || Pressed(ev, K)
    requires Navigate(p) in KeyDown(ev, v).effects
    requires Includes(v.pathname, ArticleSegment) || !EndsWith(v.pathname, "/article")
    ensures BasePath(p) == BasePath(v.pathname)
  {
    var t := if Pressed(ev, J) then NextPosition(v) else Position(v) - 1;
    if Pressed(ev, J) { NextMove(ev, v); } else { PrevMove(ev, v); }
    assert KeyDown(ev, v).effects[0] == Navigate(p);
    BasePathPreserved(v.pathname, v.articles[t].id.value);
  }

  /** The key names as the browser reports them reach their table entries. */
  lemma KeyNames()
    ensures Lower("Escape") == "escape"
    ensures Lower("J") == "j" && Lower("K") == "k"
  {
  }

  // ---------------------------------------------------------------------
  // Refresh under collaborator failures

  /** The calls actually made, and whether the handler's promise rejects. */
  datatype Trace = Trace(attempted: seq<Effect>, rejects: bool)

  /**
   * The refresh sequence when `forceSync` may reject and one reset step may
   * throw (`failingStep` counts from 0 within ResetSteps).  A rejected sync
   * ends the handler before the timer is set; a throwing reset step is the
   * last call made, and the `catch` swallows it.
   */
  function RefreshRun(syncFails: bool, failingStep: Option<nat>): (t: Trace)
    ensures t.attempted <= RefreshEffects
    ensures |t.attempted| >= 1 && t.attempted[0] == Sync
    ensures t.rejects <==> syncFails
    ensures syncFails ==> t.attempted == [Sync]
    ensures !syncFails && (failingStep.None? || failingStep.value >= |ResetSteps|) ==>
              t.attempted == RefreshEffects
    ensures !syncFails && failingStep.Some? && failingStep.value < |ResetSteps| ==>
              |t.attempted| == failingStep.value + 2
  {
    if syncFails then Trace([Sync], true)
    else match failingStep
      case None => Trace(RefreshEffects, false)
      case Some(k) =>
        if k < |ResetSteps| then Trace(RefreshEffects[..k + 2], false)
        else Trace(RefreshEffects, false)
  }

  /**
   * What a refresh key press issues is what a run without failures makes,
   * and every run with failures makes a prefix of it: nothing is rolled back
   * and nothing runs out of order.
   */
  lemma RefreshRunFollowsKeyDown(ev: KeyEvent, v: View, syncFails: bool, failingStep: Option<nat>)
    requires Pressed(ev, R) && !ev.ctrlKey && !ev.metaKey
    ensures RefreshRun(false, None).attempted == KeyDown(ev, v).effects
    ensures RefreshRun(syncFails, failingStep).attempted <= KeyDown(ev, v).effects
  {
    RefreshKey(ev, v);
  }
}
