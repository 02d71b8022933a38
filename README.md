# Scene navigator of a single-page presentation, modelled in Dafny

The presentation cycles through four scenes with next and previous buttons. On a scene's
first visit it loads that scene's stylesheet and script. It shows exactly one scene
container, enables only the current scene's stylesheet, and dispatches a `scenechange`
event once both loads have settled. A separate function, `showScene`, sets the visibility
of three control buttons and of `scene-container` elements by ordinal.

Modules:

- `SceneTable` (`scene_table.dfy`): the table of four scenes. It also holds JavaScript's
  truncating `%` and the wrap-around of `gotoIndex`, with lemmas about cycling through the
  scenes.
- `ArraySearch` (`array_search.dfy`): the first-match search behind `findIndex` and
  `getElementById`.
- `SceneNavigator` (`navigator.dfy`): the navigator closure as class `Navigator`, with the
  document replaced by fields:
  - the radios' `checked` flags and the containers' display flags;
  - the `loaded.css` and `loaded.js` sets;
  - `activeLinks`, which maps a scene id to the `disabled` flag of its registered link;
  - the sequence of stylesheet links and scripts appended to the document;
  - a count of `scenechange` dispatches.

  The asynchronous `onload` and `onerror` callbacks become the completion methods
  `CssLoaded`, `CssFailed`, `JsLoaded` and `JsFailed`. They act on the latest transition's
  `Promise.all`. `CheckRadio` is the user clicking a radio, which the next and previous
  buttons read through `currentIndex`. The invariant `Valid` states that:
  - once a transition has run, exactly one radio is checked, and the latest transition's
    scene is the only one displayed;
  - only its registered link is enabled;
  - a scene's link is registered exactly when its stylesheet has loaded;
  - every transition has dispatched `scenechange` exactly once, except an unsettled
    latest one.
- `ButtonController` (`button_controller.dfy`): `showScene` as class `Page`. Its buttons
  follow the pure rule `ButtonsFor`. Its containers follow `ShownAs`, with the lemma that
  at most one scene container stays visible.
- `Scenarios` (`scenarios.dfy`): three sessions driven only through the contracts.
  - A full cycle of next presses returns to the first scene without fetching anything
    again.
  - A stylesheet that fails to load still shows its scene and dispatches `scenechange`
    once.
  - After the user clicks another radio, next starts from that radio's scene.

The model keeps two behaviours of the code that a reader might not expect:

- `Promise.all` rejects as soon as one load fails. So after a failure `scenechange` is
  dispatched at once, and the other load may still complete afterwards (`Settled`).
- The loaded sets exist so that assets are not fetched twice (main.js:11). But an asset
  whose load failed is not recorded, so a later visit fetches it again. The "at most once"
  fetch holds from the first successful load on (`Visited`: a loaded asset appends
  nothing).

`showScene` shows `prevBtn` for every ordinal (main.js:101), including 0 and those past the
last scene; from ordinal 3 on it is the only control shown (main.js:110-111).

## Model

| member | source | states |
|---|---|---|
| `SceneTable.DistinctScenes` | main.js:3-8 | the table has four scenes and no two share an id, a stylesheet or a script |
| `SceneTable.EuclidUnique` | main.js:54 | a division with remainder in `[0, b)` is the Euclidean one: the quotient and remainder are unique |
| `SceneTable.MulAtLeast` | main.js:54 | a positive multiple of `b` is at least `b` |
| `SceneTable.JsRemainder` | main.js:54 | JavaScript `%` with a positive divisor: the Euclidean remainder for a non-negative dividend; for a negative one 0 when `b` divides it, and otherwise the Euclidean remainder minus `b` (so `-5 % 4` is `-1`) |
| `SceneTable.Wrap` | main.js:54 | `(i + n) % n` for `i >= -n` is the index `i mod n` in `[0, n)`, and is `i` itself when `i` is already in range |
| `SceneTable.WrapStep` | main.js:71-72 | next from the last scene wraps to the first, previous from the first wraps to the last, and otherwise they step by one |
| `SceneTable.Advance` | main.js:71 | pressing next `m` times from a scene gives a scene index in range |
| `SceneTable.AdvanceIsRotation` | main.js:71 | pressing next `m` times moves `m` places around the cycle: `(k + m) mod n` |
| `SceneTable.FullCycle` | main.js:71 | `n` presses of next return to the starting scene |
| `SceneTable.PrevUndoesNext` | main.js:71-72 | previous after next returns to the starting scene |
| `ArraySearch.FindIndex` | main.js:51 | `findIndex` gives -1 exactly when no element matches, otherwise the position of a matching element with no match before it |
| `SceneNavigator.OnlyCount` | main.js:59-61 | after the selection exactly one flag is set: one container displayed and one radio checked |
| `SceneNavigator.DisableOtherLinks` | main.js:18-20 | the loop over `activeLinks` disables the link of every scene other than `sceneId`, leaves that scene's flag alone, and registers or drops no link |
| `SceneNavigator.RegisterKeepsRegistered` | main.js:29 | registering a scene's link when its stylesheet loads keeps the registry matching `loaded.css` scene by scene |
| `SceneNavigator.ExclusiveEnablesOne` | main.js:18-22 | when only the current scene's link may be enabled, at most one registered link is enabled, any enabled one is the current scene's, and the current scene's link is enabled if registered |
| `SceneNavigator.Navigator.constructor` | main.js:9-13 | the page starts with nothing loaded, no link registered, nothing appended or dispatched, and the radios and containers as given |
| `SceneNavigator.Navigator.CurrentIndex` | main.js:50-52 | `currentIndex` is -1 exactly when no radio is checked, and otherwise the first checked scene |
| `SceneNavigator.Navigator.CurrentIsSelected` | main.js:50-57 | once a transition has run, `currentIndex` is the scene whose radio is checked: the transition's scene, or the radio the user clicked since |
| `SceneNavigator.Navigator.OneShown` | main.js:56-61 | once a transition has run, exactly one radio is checked and exactly one container is displayed |
| `SceneNavigator.Navigator.CheckRadio` | main.js:50-52 | a click on a radio checks it alone and changes nothing else; `currentIndex` then gives that radio's scene |
| `SceneNavigator.Navigator.AllDispatched` | main.js:63-68 | once no load is outstanding, every transition has dispatched `scenechange` exactly once |
| `SceneNavigator.Navigator.LoadCss` | main.js:15-37 | hit: resolved, no link appended, other scenes' links disabled and this scene's enabled. Miss: pending, exactly one link with that `href` appended, other scenes' links disabled. Neither adds nor drops a registration |
| `SceneNavigator.Navigator.LoadJs` | main.js:39-48 | hit: resolved and no script appended. Miss: pending and exactly one script with that `src` appended |
| `SceneNavigator.Navigator.ShowOnly` | main.js:59-61 | the target scene's container is displayed and every other container is hidden |
| `SceneNavigator.Navigator.HideAll` | main.js:77 | every container is hidden |
| `SceneNavigator.Navigator.Select` | main.js:56-61 | the target scene is the only checked radio and the only displayed container |
| `SceneNavigator.Navigator.LoadSceneAssets` | main.js:63-68 | both loads start (only unloaded assets are fetched), the loaded sets do not change, only the target scene's link may stay enabled, and `scenechange` is dispatched at once exactly when both were already loaded; the invariant is kept |
| `SceneNavigator.Navigator.GotoIndex` | main.js:53-69 | the target is scene `(i + n) % n`. It becomes the only checked and displayed scene, and its loads start as above; the invariant is kept |
| `SceneNavigator.Navigator.CssLoaded` | main.js:29 | the stylesheet joins `loaded.css` and its enabled link is registered under the scene id. `scenechange` is dispatched only if the script had already loaded; the invariant is kept |
| `SceneNavigator.Navigator.CssFailed` | main.js:30 | the promise rejects and nothing is recorded. `scenechange` is dispatched unless the script had already failed, so exactly once per transition |
| `SceneNavigator.Navigator.JsLoaded` | main.js:44 | the script joins `loaded.js`. `scenechange` is dispatched only if the stylesheet had already loaded |
| `SceneNavigator.Navigator.JsFailed` | main.js:45 | the promise rejects and nothing is recorded. `scenechange` is dispatched unless the stylesheet had already failed |
| `SceneNavigator.Navigator.Next` | main.js:71 | goes to `currentIndex() + 1` wrapped, whatever radio is checked; that is the scene after the checked one |
| `SceneNavigator.Navigator.Prev` | main.js:72 | goes to `currentIndex() - 1` wrapped, whatever radio is checked; that is the scene before the checked one |
| `SceneNavigator.Navigator.Start` | main.js:75-79 | hides every container, then goes to the checked scene, or to scene 0 when none is checked |
| `ButtonController.ButtonsFor` | main.js:101-112 | `prevBtn` is always shown, `surpriseBtn` exactly for ordinal 1 and `intentionBtn` exactly for ordinal 2 |
| `ButtonController.NatDigits` | main.js:90 | the decimal form of a natural is a non-empty string of digits without a leading zero |
| `ButtonController.NatDigitsRoundTrip` | main.js:90 | reading the decimal digits back gives the number |
| `ButtonController.NatDigitsInjective` | main.js:90 | distinct naturals have distinct decimal forms |
| `ButtonController.DecimalSign` | main.js:90 | an integer's decimal form starts with `-` exactly when it is negative |
| `ButtonController.DecimalInjective` | main.js:90 | distinct integers have distinct decimal forms |
| `ButtonController.SceneElementIdInjective` | main.js:90 | distinct ordinals give distinct ids `scene<index>` |
| `ButtonController.FindById` | main.js:90 | `getElementById` gives the first element with that id, or -1 when there is none |
| `ButtonController.FindByIdOnlyReadsIds` | main.js:87-90 | adding `hidden` classes does not change which element `getElementById` finds |
| `ButtonController.ShownLeavesOneVisible` | main.js:87-93 | after `showScene` at most one scene container is visible, and it is the one with id `scene<index>`; the container named for any other ordinal is hidden |
| `ButtonController.Page.HideContainers` | main.js:87 | every scene container gets the `hidden` class, other elements keep theirs, and ids and classes otherwise do not change |
| `ButtonController.Page.SetButtons` | main.js:101-112 | the three buttons end up as `ButtonsFor(index)` prescribes |
| `ButtonController.Page.ShowScene` | main.js:85-113 | every scene container is hidden except the first element with id `scene<index>`, which is shown if present; the buttons follow `ButtonsFor(index)` |

## Left out

- The DOM APIs are replaced by fields: `getElementById`, `querySelectorAll`,
  `createElement`, `appendChild`, `style.display` and `classList`. The radios and the
  containers are one per scene, in table order. The container of a scene is the element
  with id `<scene id>-container`. The radios and buttons are assumed present; in the
  source a missing one throws a `TypeError`.
- Setting `radio.checked = true` relies on the browser unchecking the other radios of the
  group. The model writes that outcome directly (`Select`).
- Network fetching and the browser's handling of stylesheets and scripts are out of scope.
  A load's outcome is whichever completion method the caller invokes.
- Overlapping transitions are not modelled: `GotoIndex`, `Next` and `Prev` require that
  no load of the previous transition is outstanding (`Idle`). A second `gotoIndex`
  before the loads settle depends on event-loop interleaving, which the source leaves
  undefined.
- `Start` requires that no transition has run yet, because `DOMContentLoaded` fires once.
- `GotoIndex` requires `i >= -4`. Below that, `(i + 4) % 4` is negative or `-0`. For an
  `i` that is not a multiple of 4, `scenes[idx]` is `undefined` and reading `scene.id`
  throws. For a multiple of 4 it is `-0`, which indexes the first scene. The callers only
  pass `i >= -2`.
- `window.dispatchEvent` is reduced to a counter. The `console.error` log of a failed
  transition is I/O and is not modelled.
- A resolved `Promise.all` dispatches in a later microtask. The model counts that dispatch
  at once.
- Only the `disabled` flag of registered links is modelled. A link whose load is pending
  or failed is recorded only by its `href` in the appended sequence, and `link.rel` is not
  modelled.
- The stylesheet rules that also hide containers (the comment at main.js:58) are CSS and
  are out of scope.
- `ButtonController.Decimal`: integers of magnitude 10^21 and above, which JavaScript
  writes with an exponent (`1e+21`), are not covered; `SceneElementIdInjective` holds for
  the digit form only.
- `showScene`'s `index` is modelled as an integer. JavaScript's strict equality against
  values of other types is not modelled.
