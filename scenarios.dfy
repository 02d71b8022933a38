/** Navigation sessions driven through the navigator's contracts: a full cycle of next
    presses that revisits the first scene without fetching again, a visit whose stylesheet
    fails to load but which still shows its scene and dispatches `scenechange` once, and a
    press of next after the user clicked another radio. */
module Scenarios {
  import opened SceneTable
  import opened SceneNavigator

  /** Finish the outstanding loads of the latest transition successfully. */
  method LoadBoth(nav: Navigator)
    requires nav.Valid() && nav.join.Transition?
    requires nav.join.css != Failed && nav.join.js != Failed
    modifies nav
    ensures nav.Valid() && nav.Idle() && nav.join.Transition?
    ensures nav.join.scene == old(nav.join.scene)
    ensures nav.join.css == Loaded && nav.join.js == Loaded
    ensures nav.checked == old(nav.checked) && nav.selected == old(nav.selected)
    ensures nav.display == old(nav.display)
    ensures nav.links == old(nav.links) && nav.scripts == old(nav.scripts)
    ensures nav.loadedCss == old(nav.loadedCss) + {Scenes[nav.join.scene].css}
    ensures nav.loadedJs == old(nav.loadedJs) + {Scenes[nav.join.scene].js}
  {
    if nav.join.css == Pending {
      nav.CssLoaded();
    }
    if nav.join.js == Pending {
      nav.JsLoaded();
    }
  }

  /** Press next and let both loads of the new scene succeed. */
  method NextAndLoad(nav: Navigator)
    requires nav.Valid() && nav.Idle() && nav.join.Transition?
    requires nav.selected == nav.join.scene
    modifies nav
    ensures nav.Valid() && nav.Idle() && nav.join.Transition?
    ensures nav.selected == nav.join.scene == Wrap(old(nav.join.scene) + 1)
    ensures nav.join.css == Loaded && nav.join.js == Loaded
    ensures old(nav.loadedCss) <= nav.loadedCss && old(nav.loadedJs) <= nav.loadedJs
  {
    nav.Next();
    LoadBoth(nav);
  }

  /** A page on which no radio is checked, started and with the first scene's assets
      loaded. */
  method StartedPage() returns (nav: Navigator)
    ensures fresh(nav)
    ensures nav.Valid() && nav.Idle() && nav.join.Transition?
    ensures nav.join.scene == 0 && nav.selected == 0
    ensures nav.loadedCss == {Scenes[0].css} && nav.loadedJs == {Scenes[0].js}
  {
    nav := new Navigator([false, false, false, false], [true, true, true, true]);
    nav.Start();
    LoadBoth(nav);
  }

  /** Start on the first scene, press next three times to reach the last, and once more to
      come back to the first, whose assets are already loaded. */
  method CycleOfNextPresses() {
    var nav := StartedPage();
    NextAndLoad(nav);
    NextAndLoad(nav);
    NextAndLoad(nav);
    assert nav.join.scene == 3;
    ghost var linksBefore, scriptsBefore, dispatchesBefore := nav.links, nav.scripts, nav.dispatches;
    nav.Next();
    assert nav.join.scene == 0;
    assert nav.links == linksBefore && nav.scripts == scriptsBefore;
    assert nav.dispatches == dispatchesBefore + 1;
  }

  /** Go to the second scene; its stylesheet fails to load and its script loads. The scene is
      shown and `scenechange` is dispatched once; a later visit will fetch the stylesheet
      again. */
  method FailedStylesheet() {
    var nav := StartedPage();
    DistinctScenes();
    nav.GotoIndex(1);
    assert nav.join.css == Pending && nav.join.js == Pending;
    ghost var dispatchesBefore := nav.dispatches;
    nav.CssFailed();
    assert nav.dispatches == dispatchesBefore + 1;
    nav.JsLoaded();
    assert nav.dispatches == dispatchesBefore + 1;
    assert Scenes[1].css !in nav.loadedCss && Scenes[1].js in nav.loadedJs;
    assert nav.display == Only(1, N) && nav.checked == Only(1, N);
  }

  /** On the first scene the user clicks the third scene's radio; the container shown does
      not change, and next then goes to the fourth scene, not the second. */
  method NextAfterRadioClick() {
    var nav := StartedPage();
    nav.CheckRadio(2);
    assert nav.join.scene == 0 && nav.display == Only(0, N);
    nav.Next();
    assert nav.join.scene == 3;
    assert nav.checked == Only(3, N) && nav.display == Only(3, N);
  }
}
