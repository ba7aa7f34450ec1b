# Keyboard shortcuts of the nextflux feed reader, in Dafny

This project models the decision core of nextflux's keyboard-shortcut hook
(`useHotkeys`): how a key press, seen against the reader's current state,
becomes a `preventDefault` decision and an ordered list of commands to the
router, the article store, the sync engine, the sidebar and the modal stores.

- `Paths` (paths.dfy) models `getBasePath` and the article route
  `basePath + "/article/" + id`, with JavaScript's `includes`,
  `split(...)[0]`, `startsWith` and `${id}` written out on `seq<char>`.
- `ArticleList` (article_list.dfy) models the filtered article list and
  `currentIndex`, a `findIndex` by strict id equality.
- `Hotkeys` (hotkeys.dfy) models `handleKeyDown` as the pure function
  `KeyDown`: text-entry targets are ignored, `Shift+?` and `Shift+N` come
  first, then the `switch` on `e.key.toLowerCase()` (the `Key` datatype and
  `KeyOf`). The awaited collaborator calls become `Effect` values, in the
  order the handler makes them. `RefreshRun` models the refresh sequence when
  `forceSync` rejects or one reset step throws.
- `ModalStore` (modal_store.dfy) models the three modal stores that the
  handler sets in place. They are fields of the class `Handler`, and
  `HandleKeyDown` updates them.

Modelling choices:
- Article ids are integers, as the application's ids are numbers.
- `!article?.id` is "no id, or id 0".
- `articleId` is the route parameter; it counts as present when it is a
  non-empty string.
- `$activeArticle?.id` is None when there is no active article. Because
  `undefined === undefined` holds, `currentIndex` then finds the first entry
  that has no id (`ArticleList.NoActiveMatchesIdless`).
- `v` with an article route but no active article reads `url` of `null`. The
  handler then stops with a TypeError, which is `Outcome.throwsTypeError`.
- Pathname text is compared character by character. A Dafny `char` is a
  Unicode scalar value, not a UTF-16 code unit; the two agree here because a
  pathname is percent-encoded ASCII.

Points where the code may surprise a reader:
- Among pathnames without `/article/`, only `/` gives an empty base path.
  Every other such pathname is kept as it is, not just feed and category
  routes.
- A rejected `forceSync` ends the handler before the delayed reset is
  scheduled, so no reset step runs (`Hotkeys.RefreshRun`).
- `currentIndex` can find an id-less entry when there is no active article
  (see above). It is not always "not found" in that case.

A limit on keeping the context: `BasePath(ArticlePath(BasePath(p), id)) ==
BasePath(p)` holds exactly when `p` is an article route or does not end in
`/article` (`Paths.BasePathPreserved` one way, `Paths.ContextLostAlways` the
other). Otherwise the appended `/` completes an earlier `/article/`
(`Paths.BasePathContextLost`: `/feed/article` leads to `/feed`).

## Model

| member | source | states |
|---|---|---|
| `Paths.IndexOf` | src/hooks/useHotkeys.js:41 | the result is the first position where the pattern occurs, and None exactly when it occurs nowhere (the search behind `includes`) |
| `Paths.StartsWith` | src/hooks/useHotkeys.js:46-51 | `startsWith`: the prefix relation on strings; the branches it guards are stated by `Paths.BasePath` |
| `Paths.Includes` | src/hooks/useHotkeys.js:41 | `includes`: some occurrence exists, which by `Paths.IndexOf` is the first occurrence being defined; stated in use by `Paths.BasePath` |
| `Paths.SplitHead` | src/hooks/useHotkeys.js:42 | `split(sep)[0]` is a prefix without `sep`; when `sep` occurs, the result ends at its first occurrence (one starts right after it and none starts earlier); otherwise it is the whole string |
| `Paths.BasePath` | src/hooks/useHotkeys.js:37-57 | the base path is a prefix of the pathname with no `/article/`; for an article route it ends exactly at the first `/article/`; otherwise it is `""` for `/` and the pathname itself for every other path |
| `Paths.BasePathExamples` | src/hooks/useHotkeys.js:37-57 | `/feed/7/article/99` gives `/feed/7`, `/category/3` is kept, `/` and `/article/5` give `""` |
| `Paths.NatText` | src/hooks/useHotkeys.js:103 | the text is a non-empty digit string whose decimal value is the number, with no leading zero except for `0` itself |
| `Paths.IdText` | src/hooks/useHotkeys.js:103 | `${id}` starts with `-` exactly for negative ids; the digits after the sign have the id's magnitude as decimal value and no leading zero (except the text `0`) |
| `Paths.IdTextInjective` | src/hooks/useHotkeys.js:103 | different ids render to different texts (a consequence of the decimal value) |
| `Paths.ArticlePath` | src/hooks/useHotkeys.js:102-103 | both branches of the route build (empty and non-empty base path) give the base path, then `/article/`, then the id text |
| `Paths.ArticlePathShape` | src/hooks/useHotkeys.js:102-103 | every route starts with its base path, has `/article/` right after it, and ends in `/article/<id>` |
| `Paths.ArticlePathInjective` | src/hooks/useHotkeys.js:118-119 | under one base path, distinct articles get distinct routes |
| `Paths.EscapeTarget` | src/hooks/useHotkeys.js:193-194 | the Escape target (`basePath`, or `/` when empty) is non-empty and never an article route; it is `/` exactly when the base path is empty or `/`, else the base path |
| `Paths.SegmentSelfOverlap` | src/hooks/useHotkeys.js:42 | `/article/` overlaps a shifted copy of itself only at shift 8 |
| `Paths.BasePathOfArticlePath` | src/hooks/useHotkeys.js:41-43 | resolving an article route built on a base path with no `/article/` and no `/article` suffix gives that base path back |
| `Paths.BasePathNoArticleSuffix` | src/hooks/useHotkeys.js:41-42 | the base path cut from an article route never ends in `/article` |
| `Paths.BasePathPreserved` | src/hooks/useHotkeys.js:118-119 | the route to another article keeps the current base path, for every pathname that is an article route or does not end in `/article` |
| `Paths.ContextLostAlways` | src/hooks/useHotkeys.js:41-57 | a pathname that is not an article route and ends in `/article` always resolves differently after an article route is built on it |
| `Paths.BasePathContextLost` | src/hooks/useHotkeys.js:45-48 | the pathname `/feed/article` loses its context: the route built on it resolves to `/feed` |
| `ArticleList.FindIndexFrom` | src/hooks/useHotkeys.js:34 | the result is -1 or the first position at or after `from` whose id equals the probe |
| `ArticleList.FindIndex` | src/hooks/useHotkeys.js:34 | `findIndex` by id equality gives the first matching position, and -1 exactly when no entry matches |
| `ArticleList.CurrentIndex` | src/hooks/useHotkeys.js:34 | `currentIndex` is in `-1 .. len-1`, names the first entry with the active article's id, and is -1 exactly when no entry has that id |
| `ArticleList.CurrentIndexOfListedArticle` | src/hooks/useHotkeys.js:34 | an active article listed once is found at its own position |
| `ArticleList.NoActiveMatchesIdless` | src/hooks/useHotkeys.js:34 | with no active article, an id-less entry makes `currentIndex` that entry's position or an earlier one (`undefined === undefined`) |
| `ArticleList.HasId` | src/hooks/useHotkeys.js:97 | the negation of `!article?.id`: an id is present and not 0; its use is stated by `Hotkeys.OpenArticle`, `Hotkeys.NextMove` and `Hotkeys.PrevMove` |
| `ArticleList.ActiveId` | src/hooks/useHotkeys.js:34 | `$activeArticle?.id`: None without an active article; its use is stated by `ArticleList.CurrentIndex` and `ArticleList.NoActiveMatchesIdless` |
| `Hotkeys.IsTextEntry` | src/hooks/useHotkeys.js:62-66 | the target is INPUT, TEXTAREA or editable; what follows from it is stated by `Hotkeys.TextEntryIgnored` |
| `Hotkeys.IsShortcutsCombo` | src/hooks/useHotkeys.js:70 | `e.key === "?" && e.shiftKey`; the press it selects is stated by `Hotkeys.ModifierCombos` |
| `Hotkeys.IsAddFeedCombo` | src/hooks/useHotkeys.js:76 | `e.key === "N" && e.shiftKey`; the press it selects is stated by `Hotkeys.ModifierCombos` |
| `Hotkeys.HasArticleParam` | src/hooks/useHotkeys.js:90 | `articleId` is truthy (present and non-empty); the guards it forms are stated by `Hotkeys.NextMove` and `Hotkeys.ArticleKeysNeedArticle` |
| `Hotkeys.KeyOf` | src/hooks/useHotkeys.js:82-227 | the case labels of the `switch`; which name selects which case is stated by `Hotkeys.KeyOfName` and `Hotkeys.NameOfKey` |
| `Hotkeys.NextEffects` | src/hooks/useHotkeys.js:88-126 | the body of `case "j"` issues only navigations and status marks; its branches are stated by `Hotkeys.NextMove` |
| `Hotkeys.PrevEffects` | src/hooks/useHotkeys.js:128-144 | the body of `case "k"` issues only navigations and status marks; its branches are stated by `Hotkeys.PrevMove` |
| `Hotkeys.Command` | src/hooks/useHotkeys.js:82-227 | the twelve `switch` cases; only `f` touches a modal (`Hotkeys.CommandModalOnlyForSearch`), and each case is stated through `Hotkeys.PressedSelects` by `Hotkeys.NextMove`, `Hotkeys.PrevMove`, `Hotkeys.ArticleKeysNeedArticle`, `Hotkeys.EscapeCloses`, `Hotkeys.RefreshKey` and `Hotkeys.SidebarKeys` |
| `Hotkeys.KeyDown` | src/hooks/useHotkeys.js:60-227 | `handleKeyDown`, stated by `Hotkeys.TextEntryIgnored`, `Hotkeys.ModifierCombos`, `Hotkeys.PreventDefaultTable`, `Hotkeys.UnmappedKeysIgnored`, the per-key lemmas above and `Hotkeys.NavigationTargets` |
| `Hotkeys.LowerChar` | src/hooks/useHotkeys.js:82 | lower-casing maps `A`-`Z` 32 code points down, leaves other characters alone, and never yields an upper-case letter |
| `Hotkeys.Lower` | src/hooks/useHotkeys.js:82 | `toLowerCase` keeps the length and lower-cases each character |
| `Hotkeys.KeyNames` | src/hooks/useHotkeys.js:82 | the browser's `Escape`, `J` and `K` reach the cases `escape`, `j` and `k` |
| `Hotkeys.KeyOfName` | src/hooks/useHotkeys.js:82-227 | each of the twelve case labels is selected by its own name |
| `Hotkeys.NameOfKey` | src/hooks/useHotkeys.js:82-227 | a name selects a case only if it is that case's label; exactly the names other than the twelve labels fall to `default` |
| `Hotkeys.PressedSelects` | src/hooks/useHotkeys.js:60-82 | a press that passes the text-entry test and the two combos and lowers to a label is handled by that case of the `switch` |
| `Hotkeys.Position` | src/hooks/useHotkeys.js:34 | the current position is -1 or an index of the list |
| `Hotkeys.OpenArticle` | src/hooks/useHotkeys.js:113-124 | an entry without id gives no effect; otherwise the first effect navigates to its route under the base path, and `MarkStatus` is issued exactly when the entry is not read |
| `Hotkeys.NextPosition` | src/hooks/useHotkeys.js:90-113 | the position `j` aims at lies in `0 .. len` |
| `Hotkeys.TextEntryIgnored` | src/hooks/useHotkeys.js:62-68 | a press in INPUT, TEXTAREA or an editable region issues nothing and keeps the default action |
| `Hotkeys.CommandModalOnlyForSearch` | src/hooks/useHotkeys.js:82-86 | in the `switch`, only `f` touches a modal store, and `f` issues only `OpenSearch` |
| `Hotkeys.ModifierCombos` | src/hooks/useHotkeys.js:70-80 | `Shift+?` and `Shift+N` suppress the default, issue only their own toggle, and no other press issues those toggles |
| `Hotkeys.ModalEffectsAlone` | src/hooks/useHotkeys.js:70-86 | a modal effect is always the only effect of its press, and `OpenSearch` is issued exactly for `f` |
| `Hotkeys.PreventDefaultTable` | src/hooks/useHotkeys.js:70-226 | `preventDefault` is called exactly for the two combos and for f, j, k, r, p, n, x (so never for m, s, escape, v, g or unmapped keys) |
| `Hotkeys.UnmappedKeysIgnored` | src/hooks/useHotkeys.js:225-226 | a key outside the table issues nothing and keeps the default action |
| `Hotkeys.NextMove` | src/hooks/useHotkeys.js:88-126 | `j` opens the entry at the first position (no article open) or at `currentIndex + 1`, when that is in the list and has an id, else does nothing; at the last index it does nothing; from -1 it goes to position 0; `MarkStatus` follows `Navigate` exactly for unread targets |
| `Hotkeys.PrevMove` | src/hooks/useHotkeys.js:128-144 | `k` opens the entry at `currentIndex - 1` only when `currentIndex > 0` and that entry has an id; at 0 or -1 it does nothing; `MarkStatus` follows `Navigate` exactly for unread targets |
| `Hotkeys.ArticleKeysNeedArticle` | src/hooks/useHotkeys.js:146-208 | m, s, v, g never suppress the default; without `articleId` they do nothing; with it m, s and g issue one command on the active article and finish normally, and `v` opens its URL or, with no active article, stops on a TypeError |
| `Hotkeys.EscapeCloses` | src/hooks/useHotkeys.js:189-196 | Escape with the gallery open does nothing; otherwise it navigates only to the base path, or to `/` when that is empty, never to an article route |
| `Hotkeys.RefreshKey` | src/hooks/useHotkeys.js:158-188 | `r` always suppresses the default; with ctrl or meta it issues nothing; otherwise it issues Sync, clear active, filter `unread`, navigate `/`, load `(null, "feed", 1, false)`, in that order |
| `Hotkeys.NavigationTargets` | src/hooks/useHotkeys.js:60-227 | every navigation of any press goes to `/`, to the Escape target, or to the route of a listed entry with an id under the current base path |
| `Hotkeys.MovesKeepContext` | src/hooks/useHotkeys.js:118-119 | a `j` or `k` navigation keeps the feed or category being browsed, when the pathname is an article route or does not end in `/article` |
| `Hotkeys.SidebarKeys` | src/hooks/useHotkeys.js:210-223 | `p`, `n` and `x` suppress the default and issue exactly `SidebarPrev`, `SidebarNext` and `ToggleCategory` respectively |
| `Hotkeys.RefreshRun` | src/hooks/useHotkeys.js:164-186 | under failures, the calls made are a prefix of the refresh sequence that starts with Sync; the handler rejects exactly when Sync fails; a throwing reset step is the last one attempted; with no failure all five run |
| `Hotkeys.RefreshRunFollowsKeyDown` | src/hooks/useHotkeys.js:158-188 | what `r` issues is the failure-free run, and every run under failures is a prefix of it |
| `ModalStore.ApplyEffect` | src/hooks/useHotkeys.js:70-86 | the toggles flip their own flag, `OpenSearch` forces search open, every other effect leaves the flags alone |
| `ModalStore.ApplyEffects` | src/hooks/useHotkeys.js:70-86 | the store writes of one press in issue order; stated by `ModalStore.NoModalKeepsFlags` and `ModalStore.KeyDownFlags` |
| `ModalStore.NoModalKeepsFlags` | src/hooks/useHotkeys.js:82-227 | effects that touch no modal leave all three flags unchanged |
| `ModalStore.KeyDownFlags` | src/hooks/useHotkeys.js:70-86 | after any press, only `Shift+?`, `Shift+N` and `f` have changed a flag, each only its own |
| `ModalStore.ToggleTwiceRestores` | src/hooks/useHotkeys.js:70-80 | two presses of the same combo restore every flag |
| `ModalStore.SearchOpenIdempotent` | src/hooks/useHotkeys.js:83-86 | `f` leaves search open, and a second `f` changes nothing |
| `ModalStore.Handler.HandleKeyDown` | src/hooks/useHotkeys.js:60-227 | the handler's outcome is `KeyDown`'s, and its stores afterwards are the old flags after the issued effects |
| `ModalStore.Handler.PressTwice` | src/hooks/useHotkeys.js:70-80 | two presses of a combo on the handler object leave its stores as they were |

## Left out

- Listener registration and teardown by `useEffect`, and its dependency array (src/hooks/useHotkeys.js:59, 230-247). This is framework plumbing.
- Asynchrony. Awaited calls are effects in issue order. Overlapping handlers, races between rapid presses and re-entrancy are not modelled.
- The 1000 ms `setTimeout` delay and its firing after unmount. Only the order of the reset steps and the `try`/`catch` (stop at the throwing step, no rethrow) are modelled.
- The collaborators are not part of this model: `forceSync`, `loadArticles`, `handleMarkStatus`, `handleToggleStar`, `handleToggleContent`, `window.open`, `useSidebarNavigation`, the router and the stores. Their calls are `Effect` values.
- Rejections from `handleMarkStatus`, `handleToggleStar` and `handleToggleContent` are not modelled. They would propagate out of the handler. Only the refresh sequence models collaborator failure (`Hotkeys.RefreshRun`).
- `console.log` and `console.error` output.
- Hotkeys.Lower, Hotkeys.LowerChar: lower-case ASCII letters only. JavaScript's full Unicode `toLowerCase` is not modelled, so a non-ASCII key that lowers to a table name (KELVIN SIGN to `k`) is treated as unmapped.
- Paths.IdText: renders integers in plain decimal. Non-integer, NaN and very large number ids, whose JavaScript text differs, are not modelled.
- A `null` article id is not represented: an id is a number or `undefined` (None). Since `null === undefined` is false, a null id would not match a missing active article, which the model does not capture.
- The `url` of an active article is a string. An undefined `url` passed to `window.open` is not modelled.
