/** The scene navigator of main.js:2-80 with the document replaced by plain fields:
    radio `checked` flags, container display flags, the `href` of every stylesheet link and
    the `src` of every script appended to the document, the `disabled` flag of each
    registered link, and a count of `scenechange` dispatches. The asynchronous `onload`
    and `onerror` callbacks of the two loaders become the completion methods `CssLoaded`,
    `CssFailed`, `JsLoaded` and `JsFailed`. */
module SceneNavigator {
  import opened ArraySearch
  import opened SceneTable

  /** The state of one loader's promise. */
  datatype LoadStatus = Pending | Loaded | Failed

  /** The transition started by the latest `gotoIndex`: its target scene and the state of
      its stylesheet and script loads. */
  datatype Transition =
    | NoTransition
    | Transition(scene: nat, css: LoadStatus, js: LoadStatus)

  /** `Promise.all` over the two loads settles once both resolved, or as soon as one rejected;
      either way its `then` or `catch` handler dispatches `scenechange` (main.js:63-68). */
  predicate Settled(css: LoadStatus, js: LoadStatus) {
    (css == Loaded && js == Loaded) || css == Failed || js == Failed
  }

  /** `n` flags with only the one at `idx` set: exclusive selection or visibility. */
  function Only(idx: int, n: nat): seq<bool> {
    seq(n, k => k == idx)
  }

  /** The number of set flags. */
  function CountTrue(s: seq<bool>): nat {
    if s == [] then 0 else (if s[0] then 1 else 0) + CountTrue(s[1..])
  }

  /** Exactly one flag of `Only(idx, n)` is set when `idx` is in range, none otherwise. */
  lemma {:induction false} OnlyCount(idx: int, n: nat)
    ensures CountTrue(Only(idx, n)) == if 0 <= idx < n then 1 else 0
    decreases n
  {
    if n > 0 {
      assert Only(idx, n)[1..] == Only(idx - 1, n - 1);
      OnlyCount(idx - 1, n - 1);
    }
  }

  /** The loop over `activeLinks` (main.js:18-20 and 33-35): the link of every scene other
      than `sceneId` becomes disabled, and `sceneId`'s own link keeps its flag. */
  method DisableOtherLinks(reg: map<string, bool>, sceneId: string) returns (r: map<string, bool>)
    ensures r.Keys == reg.Keys
    ensures forall sid | sid in r :: r[sid] == (sid != sceneId || reg[sid])
  {
    r := reg;
    var todo := reg.Keys;
    while todo != {}
      invariant todo <= reg.Keys && r.Keys == reg.Keys
      invariant forall sid | sid in r :: r[sid] == if sid in todo then reg[sid] else (sid != sceneId || reg[sid])
      decreases todo
    {
      var sid :| sid in todo;
      if sid != sceneId {
        r := r[sid := true];
      }
      todo := todo - {sid};
    }
  }

  /** Of the registered links only the one of scene `cur` is enabled. */
  ghost predicate Exclusive(reg: map<string, bool>, cur: int)
    requires 0 <= cur < N
  {
    forall sid | sid in reg :: reg[sid] == (sid != Scenes[cur].id)
  }

  /** A scene's link is registered exactly when its stylesheet has loaded. */
  ghost predicate Registered(loadedCss: set<string>, reg: map<string, bool>) {
    forall k | 0 <= k < N :: Scenes[k].css in loadedCss <==> Scenes[k].id in reg
  }

  /** The `onload` of scene `s`'s link adds its stylesheet to `loaded.css` and registers the
      link under its id (main.js:29); as no two scenes share an id or a stylesheet, the
      registry still matches the loaded stylesheets. */
  lemma RegisterKeepsRegistered(loadedCss: set<string>, reg: map<string, bool>, s: nat)
    requires s < N && Registered(loadedCss, reg)
    ensures Registered(loadedCss + {Scenes[s].css}, reg[Scenes[s].id := false])
  {
  }

  /** At most one registered link is enabled while the registry is exclusive, and it is the
      current scene's. */
  lemma ExclusiveEnablesOne(reg: map<string, bool>, cur: int)
    requires 0 <= cur < N && Exclusive(reg, cur)
    ensures forall a, b | a in reg && b in reg && !reg[a] && !reg[b] :: a == b
    ensures forall a | a in reg && !reg[a] :: a == Scenes[cur].id
    ensures Scenes[cur].id in reg ==> !reg[Scenes[cur].id]
  {
  }

  /** The state of the navigator closure together with the parts of the document it touches. */
  class Navigator {
    /** `checked` of each scene's radio, in table order. */
    var checked: seq<bool>
    /** Whether each scene's container is shown (`style.display` is "block", not "none"). */
    var display: seq<bool>
    /** `loaded.css`: stylesheet paths whose link has loaded. */
    var loadedCss: set<string>
    /** `loaded.js`: script paths whose script has loaded. */
    var loadedJs: set<string>
    /** `activeLinks`: scene id to the `disabled` flag of the link registered for that scene. */
    var activeLinks: map<string, bool>
    /** The `href` of every stylesheet link appended to the document head, in order. */
    var links: seq<string>
    /** The `src` of every script appended to the document body, in order. */
    var scripts: seq<string>
    /** The number of `scenechange` events dispatched. */
    var dispatches: nat
    /** The latest transition and the state of its two loads. */
    var join: Transition
    /** The number of transitions started. */
    ghost var started: nat
    /** The scene whose radio is checked, once a transition has checked one: the latest
        transition's scene, or the radio the user clicked since. */
    ghost var selected: nat

    /** Before the first transition nothing has been fetched or dispatched. */
    ghost predicate Pristine()
      reads this`loadedCss, this`loadedJs, this`activeLinks, this`links, this`scripts
      reads this`dispatches, this`started
    {
      && loadedCss == {} && loadedJs == {} && activeLinks == map[]
      && links == [] && scripts == [] && dispatches == 0 && started == 0
    }

    /** Of the latest transition's scene only the registered link is enabled; a resolved
        load's asset is loaded, and a pending load is the last element appended and its
        asset is not yet loaded. */
    ghost predicate TransitionValid()
      reads this`loadedCss, this`loadedJs, this`activeLinks, this`links, this`scripts, this`join
      requires join.Transition?
    {
      && join.scene < N
      && Exclusive(activeLinks, join.scene)
      && (join.css == Loaded ==> Scenes[join.scene].css in loadedCss)
      && (join.js == Loaded ==> Scenes[join.scene].js in loadedJs)
      && (join.css == Pending ==>
            && |links| > 0 && links[|links| - 1] == Scenes[join.scene].css
            && Scenes[join.scene].css !in loadedCss)
      && (join.js == Pending ==>
            && |scripts| > 0 && scripts[|scripts| - 1] == Scenes[join.scene].js
            && Scenes[join.scene].js !in loadedJs)
    }

    /** Every started transition has dispatched `scenechange` once, except a latest one whose
        `Promise.all` has not settled yet, which has not dispatched. */
    ghost predicate DispatchValid()
      reads this`dispatches, this`join, this`started
    {
      dispatches + (if join.Transition? && !Settled(join.css, join.js) then 1 else 0) == started
    }

    /** The invariant of the loaders' state, which the radios and containers do not affect. */
    ghost predicate LoadsValid()
      reads this`loadedCss, this`loadedJs, this`activeLinks, this`links, this`scripts
      reads this`dispatches, this`join, this`started
    {
      && (join.NoTransition? ==> Pristine())
      && (join.Transition? ==> TransitionValid())
      && Registered(loadedCss, activeLinks)
      && DispatchValid()
    }

    /** The invariant: one radio and one container per scene; once a transition has run,
        exactly one radio is checked and the latest transition's scene is the only one
        displayed; and the loaders' invariant. */
    ghost predicate Valid()
      reads this
    {
      && |checked| == N && |display| == N
      && (join.Transition? ==> selected < N && checked == Only(selected, N) && display == Only(join.scene, N))
      && LoadsValid()
    }

    /** No load of the latest transition is still outstanding. */
    predicate Idle()
      reads this`join
    {
      join.NoTransition? || (join.css != Pending && join.js != Pending)
    }

    /** What the loads of a transition to scene `idx` do: the loaded sets are unchanged, only
        the link of scene `idx` may stay enabled, a loaded asset is not fetched again and an
        unloaded one is fetched once, and `scenechange` is dispatched at once when both assets
        were already loaded. */
    twostate predicate LoadsStarted(idx: int)
      reads this
    {
      && 0 <= idx < N
      && join.Transition? && join.scene == idx
      && loadedCss == old(loadedCss) && loadedJs == old(loadedJs)
      && activeLinks.Keys == old(activeLinks.Keys)
      && (forall sid | sid in activeLinks :: activeLinks[sid] == (sid != Scenes[idx].id))
      && (if Scenes[idx].css in loadedCss
          then join.css == Loaded && links == old(links)
          else join.css == Pending && links == old(links) + [Scenes[idx].css])
      && (if Scenes[idx].js in loadedJs
          then join.js == Loaded && scripts == old(scripts)
          else join.js == Pending && scripts == old(scripts) + [Scenes[idx].js])
      && started == old(started) + 1
      && dispatches == old(dispatches) + (if join.css == Loaded && join.js == Loaded then 1 else 0)
    }

    /** What `gotoIndex` does when it moves to scene `idx`: scene `idx` is the checked and the
        only displayed one, and its loads have started. */
    twostate predicate Visited(idx: int)
      reads this
    {
      && 0 <= idx < N
      && checked == Only(idx, N) && selected == idx && display == Only(idx, N)
      && LoadsStarted(idx)
    }

    /** The page as it is before `DOMContentLoaded`: radios and containers in their
        initial state, nothing loaded. */
    constructor (initiallyChecked: seq<bool>, initialDisplay: seq<bool>)
      requires |initiallyChecked| == N && |initialDisplay| == N
      ensures Valid() && Idle() && join == NoTransition && Pristine()
      ensures checked == initiallyChecked && display == initialDisplay
    {
      checked, display := initiallyChecked, initialDisplay;
      loadedCss, loadedJs, activeLinks := {}, {}, map[];
      links, scripts, dispatches := [], [], 0;
      join := NoTransition;
      started, selected := 0, 0;
    }

    /** `currentIndex`: the first scene whose radio is checked, or -1 if none is. */
    function CurrentIndex(): (r: int)
      reads this
      requires |checked| == N
      ensures -1 <= r < N
      ensures r == -1 <==> forall k | 0 <= k < N :: !checked[k]
      ensures 0 <= r ==> checked[r] && forall k | 0 <= k < r :: !checked[k]
    {
      FindIndex(checked, (c: bool) => c)
    }

    /** Once a transition has started, the current index is the scene whose radio is checked:
        the transition's own scene unless the user has clicked another radio since. */
    lemma CurrentIsSelected()
      requires Valid() && join.Transition?
      ensures CurrentIndex() == selected
    {
      assert checked[selected];
    }

    /** Once a transition has started, exactly one radio is checked and exactly one container
        is displayed. */
    lemma OneShown()
      requires Valid() && join.Transition?
      ensures CountTrue(display) == 1 && CountTrue(checked) == 1
    {
      OnlyCount(join.scene, N);
      OnlyCount(selected, N);
    }

    /** The user clicks the radio of scene `k`: the browser checks it and unchecks the others
        of its group. Nothing else changes; the next and previous buttons then start from
        `k`. */
    method CheckRadio(k: nat)
      requires Valid() && k < N
      modifies this`checked, this`selected
      ensures Valid() && checked == Only(k, N) && selected == k
      ensures CurrentIndex() == k
    {
      checked := Only(k, N);
      selected := k;
      assert checked[k];
    }

    /** With no load outstanding, every transition started has dispatched `scenechange`
        exactly once. */
    lemma AllDispatched()
      requires Valid() && Idle()
      ensures dispatches == started
    {
    }

    /** `loadCSS(file, sceneId)`. When `file` is loaded: disable the other scenes' links,
        enable this scene's, and resolve at once. Otherwise: append a new link, disable the
        other scenes' links, and leave the promise pending on the new link. */
    method LoadCss(file: string, sceneId: string) returns (status: LoadStatus)
      modifies this`links, this`activeLinks
      ensures activeLinks.Keys == old(activeLinks.Keys)
      ensures file in loadedCss ==>
        && status == Loaded && links == old(links)
        && forall sid | sid in activeLinks :: activeLinks[sid] == (sid != sceneId)
      ensures file !in loadedCss ==>
        && status == Pending && links == old(links) + [file]
        && forall sid | sid in activeLinks :: activeLinks[sid] == (sid != sceneId || old(activeLinks)[sid])
    {
      if file in loadedCss {
        activeLinks := DisableOtherLinks(activeLinks, sceneId);
        if sceneId in activeLinks {
          activeLinks := activeLinks[sceneId := false];
        }
        status := Loaded;
      } else {
        links := links + [file];
        activeLinks := DisableOtherLinks(activeLinks, sceneId);
        status := Pending;
      }
    }

    /** `loadJS(file)`: resolve at once when `file` is loaded, otherwise append one script
        element and leave the promise pending on it. */
    method LoadJs(file: string) returns (status: LoadStatus)
      modifies this`scripts
      ensures file in loadedJs ==> status == Loaded && scripts == old(scripts)
      ensures file !in loadedJs ==> status == Pending && scripts == old(scripts) + [file]
    {
      if file in loadedJs {
        status := Loaded;
      } else {
        scripts := scripts + [file];
        status := Pending;
      }
    }

    /** The `forEach` over the scene containers: display the one of scene `idx`, hide the
        others (main.js:59-61). */
    method ShowOnly(idx: nat)
      requires |display| == N
      modifies this`display
      ensures display == Only(idx, N)
    {
      var k := 0;
      while k < |display|
        invariant |display| == N && 0 <= k <= N
        invariant forall m | 0 <= m < k :: display[m] == (m == idx)
      {
        display := display[k := (k == idx)];
        k := k + 1;
      }
    }

    /** The `forEach` of the startup handler: hide every scene container (main.js:77). */
    method HideAll()
      requires |display| == N
      modifies this`display
      ensures |display| == N && forall k | 0 <= k < N :: !display[k]
    {
      var k := 0;
      while k < |display|
        invariant |display| == N && 0 <= k <= N
        invariant forall m | 0 <= m < k :: !display[m]
      {
        display := display[k := false];
        k := k + 1;
      }
    }

    /** Check scene `idx`'s radio, which unchecks the others of its group, and display its
        container only (main.js:56-61). */
    method Select(idx: nat)
      requires |display| == N
      modifies this`checked, this`selected, this`display
      ensures checked == Only(idx, N) && selected == idx && display == Only(idx, N)
    {
      // Setting one radio of the group checked unchecks the others.
      checked := Only(idx, N);
      selected := idx;
      ShowOnly(idx);
    }

    /** The `Promise.all` over `loadCSS` and `loadJS` of scene `idx` (main.js:63-68): start
        both loads, and dispatch `scenechange` at once when both resolve without fetching. */
    method LoadSceneAssets(idx: nat)
      requires LoadsValid() && Idle()
      requires idx < N
      modifies this`links, this`activeLinks, this`scripts, this`started, this`join, this`dispatches
      ensures LoadsValid() && LoadsStarted(idx)
    {
      var scene := Scenes[idx];
      assert scene.css in loadedCss <==> scene.id in activeLinks;
      var css := LoadCss(scene.css, scene.id);
      var js := LoadJs(scene.js);
      started := started + 1;
      join := Transition(idx, css, js);
      if Settled(css, js) {
        dispatches := dispatches + 1;
      }
    }

    /** `gotoIndex(i)`: check and show scene `(i + N) % N` only, then load its assets. */
    method GotoIndex(i: int)
      requires Valid() && Idle()
      requires i >= -N
      modifies this`checked, this`selected, this`display, this`links, this`activeLinks
      modifies this`scripts, this`started, this`join, this`dispatches
      ensures Valid() && Visited(Wrap(i))
    {
      var idx := Wrap(i);
      Select(idx);
      LoadSceneAssets(idx);
    }

    /** The `onload` of the pending stylesheet link (main.js:29): the stylesheet joins
        `loaded.css`, its enabled link is registered under the scene's id, and `scenechange`
        is dispatched when the script had already loaded. */
    method CssLoaded()
      requires Valid() && join.Transition? && join.css == Pending
      modifies this`loadedCss, this`activeLinks, this`join, this`dispatches
      ensures Valid()
      ensures loadedCss == old(loadedCss) + {Scenes[join.scene].css}
      ensures activeLinks == old(activeLinks)[Scenes[join.scene].id := false]
      ensures join == old(join).(css := Loaded)
      ensures dispatches == old(dispatches) + (if old(join).js == Loaded then 1 else 0)
    {
      var scene := Scenes[join.scene];
      RegisterKeepsRegistered(loadedCss, activeLinks, join.scene);
      loadedCss := loadedCss + {scene.css};
      activeLinks := activeLinks[scene.id := false];
      var before := Settled(join.css, join.js);
      join := join.(css := Loaded);
      if !before && Settled(join.css, join.js) {
        dispatches := dispatches + 1;
      }
    }

    /** The `onerror` of the pending stylesheet link (main.js:30): the promise rejects, nothing
        is recorded, and `scenechange` is dispatched unless the script had already failed. */
    method CssFailed()
      requires Valid() && join.Transition? && join.css == Pending
      modifies this`join, this`dispatches
      ensures Valid()
      ensures join == old(join).(css := Failed)
      ensures dispatches == old(dispatches) + (if old(join).js == Failed then 0 else 1)
    {
      var before := Settled(join.css, join.js);
      join := join.(css := Failed);
      if !before && Settled(join.css, join.js) {
        dispatches := dispatches + 1;
      }
    }

    /** The `onload` of the pending script (main.js:44): the script joins `loaded.js`, and
        `scenechange` is dispatched when the stylesheet had already loaded. */
    method JsLoaded()
      requires Valid() && join.Transition? && join.js == Pending
      modifies this`loadedJs, this`join, this`dispatches
      ensures Valid()
      ensures loadedJs == old(loadedJs) + {Scenes[join.scene].js}
      ensures join == old(join).(js := Loaded)
      ensures dispatches == old(dispatches) + (if old(join).css == Loaded then 1 else 0)
    {
      loadedJs := loadedJs + {Scenes[join.scene].js};
      var before := Settled(join.css, join.js);
      join := join.(js := Loaded);
      if !before && Settled(join.css, join.js) {
        dispatches := dispatches + 1;
      }
    }

    /** The `onerror` of the pending script (main.js:45): the promise rejects, nothing is
        recorded, and `scenechange` is dispatched unless the stylesheet had already failed. */
    method JsFailed()
      requires Valid() && join.Transition? && join.js == Pending
      modifies this`join, this`dispatches
      ensures Valid()
      ensures join == old(join).(js := Failed)
      ensures dispatches == old(dispatches) + (if old(join).css == Failed then 0 else 1)
    {
      var before := Settled(join.css, join.js);
      join := join.(js := Failed);
      if !before && Settled(join.css, join.js) {
        dispatches := dispatches + 1;
      }
    }

    /** The next button: `gotoIndex(currentIndex() + 1)` (main.js:71). */
    method Next()
      requires Valid() && Idle()
      modifies this`checked, this`selected, this`display, this`links, this`activeLinks
      modifies this`scripts, this`started, this`join, this`dispatches
      ensures Valid() && Visited(Wrap(old(CurrentIndex()) + 1))
      ensures old(join).Transition? ==> join.scene == Wrap(old(selected) + 1)
    {
      if join.Transition? {
        CurrentIsSelected();
      }
      GotoIndex(CurrentIndex() + 1);
    }

    /** The previous button: `gotoIndex(currentIndex() - 1)` (main.js:72). */
    method Prev()
      requires Valid() && Idle()
      modifies this`checked, this`selected, this`display, this`links, this`activeLinks
      modifies this`scripts, this`started, this`join, this`dispatches
      ensures Valid() && Visited(Wrap(old(CurrentIndex()) - 1))
      ensures old(join).Transition? ==> join.scene == Wrap(old(selected) - 1)
    {
      if join.Transition? {
        CurrentIsSelected();
      }
      GotoIndex(CurrentIndex() - 1);
    }

    /** The `DOMContentLoaded` handler (main.js:75-79): hide every container, then go to the
        checked scene, or to the first when none is checked. */
    method Start()
      requires Valid() && join.NoTransition?
      modifies this`checked, this`selected, this`display, this`links, this`activeLinks
      modifies this`scripts, this`started, this`join, this`dispatches
      ensures Valid() && Visited(if old(CurrentIndex()) == -1 then 0 else old(CurrentIndex()))
    {
      HideAll();
      var c := CurrentIndex();
      GotoIndex(if c == -1 then 0 else c);
    }
  }
}
