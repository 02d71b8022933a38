/** `showScene` (main.js:85-113): hide every scene container, show the element with id
    `scene<index>`, and set the visibility of the three control buttons. */
module ButtonController {
  import opened ArraySearch

  /** Whether `prevBtn`, `surpriseBtn` and `intentionBtn` are displayed. */
  datatype Buttons = Buttons(prev: bool, surprise: bool, intention: bool)

  /** An element of the page: its id, whether it carries the `scene-container` class, and
      whether it carries the `hidden` class. */
  datatype Element = Element(id: string, sceneContainer: bool, hidden: bool)

  /** The visibility rule for the buttons (main.js:101-112): previous is always shown, the
      surprise button only for scene 1 and the intention button only for scene 2. */
  function ButtonsFor(index: int): (b: Buttons)
    ensures b.prev
    ensures b.surprise <==> index == 1
    ensures b.intention <==> index == 2
  {
    if index == 1 then Buttons(true, true, false)
    else if index == 2 then Buttons(true, false, true)
    else Buttons(true, false, false)
  }

  /** The digit character of `d`. */
  function DigitChar(d: nat): char
    requires d < 10
  {
    "0123456789"[d]
  }

  /** The value of a digit character. */
  function DigitValue(c: char): nat {
    if '0' <= c <= '9' then (c - '0') as nat else 0
  }

  /** The decimal digits of `n`, without leading zeros. */
  function NatDigits(n: nat): (s: string)
    ensures |s| > 0
    ensures forall k | 0 <= k < |s| :: '0' <= s[k] <= '9'
    ensures n > 0 ==> s[0] != '0'
    decreases n
  {
    if n < 10 then [DigitChar(n)] else NatDigits(n / 10) + [DigitChar(n % 10)]
  }

  /** The number a string of decimal digits spells. */
  function DigitsValue(s: string): nat {
    if s == [] then 0 else DigitsValue(s[..|s| - 1]) * 10 + DigitValue(s[|s| - 1])
  }

  /** Reading back the digits of `n` gives `n`. */
  lemma {:induction false} NatDigitsRoundTrip(n: nat)
    ensures DigitsValue(NatDigits(n)) == n
    decreases n
  {
    if n >= 10 {
      var s := NatDigits(n);
      assert s[..|s| - 1] == NatDigits(n / 10);
      NatDigitsRoundTrip(n / 10);
    }
  }

  /** JavaScript's conversion of an integer to its decimal string, for magnitudes below
      10^21 (from there JavaScript writes an exponent, as in `1e+21`). */
  function Decimal(i: int): string {
    if i < 0 then "-" + NatDigits(-i) else NatDigits(i)
  }

  /** Distinct naturals have distinct digit strings. */
  lemma NatDigitsInjective(a: nat, b: nat)
    requires NatDigits(a) == NatDigits(b)
    ensures a == b
  {
    NatDigitsRoundTrip(a);
    NatDigitsRoundTrip(b);
  }

  /** A decimal string starts with a minus sign exactly when the number is negative. */
  lemma DecimalSign(i: int)
    ensures |Decimal(i)| > 0
    ensures Decimal(i)[0] == '-' <==> i < 0
    ensures i < 0 ==> Decimal(i)[1..] == NatDigits(-i)
  {
  }

  /** Distinct integers have distinct decimal strings. */
  lemma DecimalInjective(i: int, j: int)
    requires Decimal(i) == Decimal(j)
    ensures i == j
  {
    DecimalSign(i);
    DecimalSign(j);
    if i < 0 {
      NatDigitsInjective(-i, -j);
    } else {
      NatDigitsInjective(i, j);
    }
  }

  /** The template literal `scene${index}`. */
  function SceneElementId(index: int): string {
    "scene" + Decimal(index)
  }

  /** Different ordinals name different elements. */
  lemma SceneElementIdInjective(i: int, j: int)
    requires SceneElementId(i) == SceneElementId(j)
    ensures i == j
  {
    assert Decimal(i) == SceneElementId(i)[5..] == SceneElementId(j)[5..] == Decimal(j);
    DecimalInjective(i, j);
  }

  /** `getElementById(id)`: the position of the first element with that id, or -1. */
  function FindById(es: seq<Element>, id: string): (r: int)
    ensures -1 <= r < |es|
    ensures r == -1 <==> forall k | 0 <= k < |es| :: es[k].id != id
    ensures 0 <= r ==> es[r].id == id && forall k | 0 <= k < r :: es[k].id != id
  {
    FindIndex(es, (e: Element) => e.id == id)
  }

  /** `getElementById` depends on the elements' ids only. */
  lemma FindByIdOnlyReadsIds(a: seq<Element>, b: seq<Element>, id: string)
    requires |a| == |b| && forall m | 0 <= m < |a| :: a[m].id == b[m].id
    ensures FindById(a, id) == FindById(b, id)
  {
  }

  /** The page after `showScene(index)`: every scene container gets the `hidden` class, then
      the element found by `scene<index>` loses it. */
  ghost predicate ShownAs(after: seq<Element>, before: seq<Element>, index: int) {
    var target := FindById(before, SceneElementId(index));
    && |after| == |before|
    && forall k | 0 <= k < |before| ::
      && after[k].id == before[k].id
      && after[k].sceneContainer == before[k].sceneContainer
      && after[k].hidden == (k != target && (before[k].sceneContainer || before[k].hidden))
  }

  /** After `showScene(index)` at most one scene container is visible: the element named
      `scene<index>`, if it is a container. The container of every other ordinal is hidden. */
  lemma ShownLeavesOneVisible(after: seq<Element>, before: seq<Element>, index: int)
    requires ShownAs(after, before, index)
    ensures forall k | 0 <= k < |after| && after[k].sceneContainer && !after[k].hidden ::
      after[k].id == SceneElementId(index)
    ensures forall j, k | 0 <= j < |after| && 0 <= k < |after| && j != k ::
      !(after[j].sceneContainer && !after[j].hidden && after[k].sceneContainer && !after[k].hidden)
    ensures forall other, k | other != index && 0 <= k < |after| &&
      after[k].sceneContainer && after[k].id == SceneElementId(other) :: after[k].hidden
  {
    forall other, k | other != index && 0 <= k < |after| &&
      after[k].sceneContainer && after[k].id == SceneElementId(other)
      ensures after[k].hidden
    {
      if !after[k].hidden {
        SceneElementIdInjective(other, index);
      }
    }
  }

  /** The page elements and the displayed state of the three buttons. */
  class Page {
    var elements: seq<Element>
    var prevShown: bool
    var surpriseShown: bool
    var intentionShown: bool

    constructor (initial: seq<Element>)
      ensures elements == initial
      ensures !prevShown && !surpriseShown && !intentionShown
    {
      elements := initial;
      prevShown, surpriseShown, intentionShown := false, false, false;
    }

    /** The `forEach` adding the `hidden` class to every scene container (main.js:87). */
    method HideContainers()
      modifies this`elements
      ensures |elements| == |old(elements)|
      ensures forall m | 0 <= m < |elements| ::
        && elements[m].id == old(elements)[m].id
        && elements[m].sceneContainer == old(elements)[m].sceneContainer
        && elements[m].hidden == (old(elements)[m].sceneContainer || old(elements)[m].hidden)
    {
      var k := 0;
      while k < |elements|
        invariant 0 <= k <= |elements| == |old(elements)|
        invariant forall m | 0 <= m < |elements| ::
          && elements[m].id == old(elements)[m].id
          && elements[m].sceneContainer == old(elements)[m].sceneContainer
          && elements[m].hidden == if m < k then old(elements)[m].sceneContainer || old(elements)[m].hidden
                                   else old(elements)[m].hidden
      {
        if elements[k].sceneContainer {
          elements := elements[k := elements[k].(hidden := true)];
        }
        k := k + 1;
      }
    }

    /** `showScene(index)`: the container step by step, then the buttons step by step. */
    method ShowScene(index: int)
      modifies this
      ensures ShownAs(elements, old(elements), index)
      ensures Buttons(prevShown, surpriseShown, intentionShown) == ButtonsFor(index)
    {
      HideContainers();
      // Show the current scene.
      var current := FindById(elements, SceneElementId(index));
      FindByIdOnlyReadsIds(elements, old(elements), SceneElementId(index));
      if current != -1 {
        elements := elements[current := elements[current].(hidden := false)];
      }
      SetButtons(index);
    }

    /** The controls part of `showScene` (main.js:101-112): reset the three buttons, then
        show the one specific to the scene. */
    method SetButtons(index: int)
      modifies this`prevShown, this`surpriseShown, this`intentionShown
      ensures Buttons(prevShown, surpriseShown, intentionShown) == ButtonsFor(index)
    {
      prevShown := true;
      surpriseShown := false;
      intentionShown := false;
      if index == 1 {
        surpriseShown := true;
      } else if index == 2 {
        intentionShown := true;
      }
    }
  }
}
