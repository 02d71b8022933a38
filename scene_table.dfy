/** The fixed table of scenes (main.js:3-8) and the index arithmetic of navigation
    (main.js:54, 71-72). */
module SceneTable {

  /** One scene: the id of its radio selector, its stylesheet path and its script path. */
  datatype Scene = Scene(id: string, css: string, js: string)

  /** The scenes in navigation order. */
  const Scenes: seq<Scene> := [
    Scene("scene1", "scene1.css", "scene1.js"),
    Scene("scene2", "scene2.css", "scene2.js"),
    Scene("scene3", "scene3.css", "scene3.js"),
    Scene("scene4", "scene4.css", "scene4.js")
  ]

  /** `scenes.length`. */
  const N: int := |Scenes|

  /** No two scenes share an id, a stylesheet or a script. */
  lemma DistinctScenes()
    ensures N == 4
    ensures forall j, k | 0 <= j < N && 0 <= k < N && j != k ::
      Scenes[j].id != Scenes[k].id && Scenes[j].css != Scenes[k].css && Scenes[j].js != Scenes[k].js
  {
  }

  /** `a` is `b * q + r` with `0 <= r < b` only for the Euclidean quotient and remainder. */
  lemma EuclidUnique(a: int, b: int, q: int, r: int)
    requires b > 0 && a == b * q + r && 0 <= r < b
    ensures a % b == r && a / b == q
  {
    var q', r' := a / b, a % b;
    assert b * (q - q') == r' - r;
    if q != q' {
      var d := if q > q' then q - q' else q' - q;
      assert b * d == if q > q' then r' - r else r - r';
      MulAtLeast(b, d);
    }
  }

  /** A positive multiple of `b` is at least `b`. */
  lemma {:induction false} MulAtLeast(b: int, d: int)
    requires b > 0 && d >= 1
    ensures b * d >= b
    decreases d
  {
    if d > 1 {
      MulAtLeast(b, d - 1);
      assert b * d == b * (d - 1) + b;
    }
  }

  /** JavaScript's `a % b` for a positive divisor: the remainder of division truncated
      toward zero, whose sign follows the dividend (unlike Dafny's Euclidean `%`). */
  function JsRemainder(a: int, b: int): (r: int)
    requires b > 0
    ensures a >= 0 ==> r == a % b
    ensures a < 0 ==> r == if a % b == 0 then 0 else a % b - b
    ensures -b < r < b
  {
    if a >= 0 then a % b
    else
      var q, m := (-a) / b, (-a) % b;
      assert a == b * (-q - 1) + (b - m);
      if m != 0 then EuclidUnique(a, b, -q - 1, b - m); -m
      else EuclidUnique(a, b, -q, 0); 0
  }

  /** The index `gotoIndex(i)` moves to, `(i + scenes.length) % scenes.length`. Below `-N`
      the source's remainder is negative: for an `i` that is not a multiple of `N`,
      `scenes[idx]` is undefined and reading its id throws; for a multiple it is `-0`, which
      indexes the first scene. Every caller passes `i >= -2`. */
  function Wrap(i: int): (idx: nat)
    requires i >= -N
    ensures idx < N
    ensures idx == i % N
    ensures 0 <= i < N ==> idx == i
  {
    JsRemainder(i + N, N)
  }

  /** One step of the next and previous buttons from scene `k`: next from the last scene
      wraps to the first, previous from the first wraps to the last. */
  lemma WrapStep(k: int)
    requires 0 <= k < N
    ensures Wrap(k + 1) == if k == N - 1 then 0 else k + 1
    ensures Wrap(k - 1) == if k == 0 then N - 1 else k - 1
  {
  }

  /** The scene reached by pressing next `m` times from scene `k`. */
  function Advance(k: nat, m: nat): (r: nat)
    requires k < N
    ensures r < N
  {
    if m == 0 then k else Wrap(Advance(k, m - 1) + 1)
  }

  /** Pressing next `m` times moves `m` scenes forward around the cycle. */
  lemma {:induction false} AdvanceIsRotation(k: nat, m: nat)
    requires k < N
    ensures Advance(k, m) == (k + m) % N
  {
    if m > 0 {
      AdvanceIsRotation(k, m - 1);
      assert Advance(k, m) == ((k + m - 1) % N + 1) % N;
    }
  }

  /** A full round of next presses returns to the starting scene. */
  lemma FullCycle(k: nat)
    requires k < N
    ensures Advance(k, N) == k
  {
    AdvanceIsRotation(k, N);
  }

  /** Previous undoes next. */
  lemma PrevUndoesNext(k: nat)
    requires k < N
    ensures Wrap(Wrap(k + 1) - 1) == k
  {
  }
}
