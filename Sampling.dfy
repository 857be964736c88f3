/** `choose_index`: pick an index of a probability list by walking the
    cumulative intervals [prefix(i), prefix(i+1)) until one contains the
    draw. The three copies in the repository differ only in what they return
    when no interval contains it (0 or -1); the draw, `random.random()` in
    the source, is a parameter. */
module Sampling {

  import opened Common

  /** Sum of the first k probabilities. */
  function Prefix(probs: seq<real>, k: nat): real
    requires k <= |probs|
  {
    Sum(probs[..k])
  }

  /** Interval i, [prefix(i), prefix(i+1)), contains the draw. */
  predicate Covers(probs: seq<real>, draw: real, i: nat)
    requires i < |probs|
  {
    Prefix(probs, i) <= draw < Prefix(probs, i + 1)
  }

  /** The first interval at or after `from` that contains the draw. */
  function FirstCoveringFrom(probs: seq<real>, draw: real, from: nat): (r: Option<nat>)
    requires from <= |probs|
    ensures r.Some? ==> (from <= r.value < |probs| && Covers(probs, draw, r.value) &&
      forall j :: from <= j < r.value ==> !Covers(probs, draw, j))
    ensures r.None? ==> forall j :: from <= j < |probs| ==> !Covers(probs, draw, j)
    decreases |probs| - from
  {
    if from == |probs| then None
    else if Covers(probs, draw, from) then Some(from)
    else FirstCoveringFrom(probs, draw, from + 1)
  }

  /** What `choose_index` returns: the first covering index, else `fallback`. */
  function Chosen(probs: seq<real>, draw: real, fallback: int): int
  {
    match FirstCoveringFrom(probs, draw, 0)
    case Some(i) => i
    case None => fallback
  }

  /** The running-sum loop of `choose_index`; `fallback` is 0 in the
      utilities and statistics modules and -1 in the probability module. */
  method ChooseIndex(probs: seq<real>, draw: real, fallback: int) returns (r: int)
    ensures r == Chosen(probs, draw, fallback)
  {
    var upperLimit := 0.0;
    var lowerLimit := 0.0;
    var i := 0;
    while i < |probs|
      invariant 0 <= i <= |probs|
      invariant lowerLimit == Prefix(probs, i) && upperLimit == Prefix(probs, i)
      invariant FirstCoveringFrom(probs, draw, 0) == FirstCoveringFrom(probs, draw, i)
    {
      assert probs[..i + 1][..i] == probs[..i];
      upperLimit := upperLimit + probs[i];
      if lowerLimit <= draw < upperLimit {
        return i;
      }
      lowerLimit := lowerLimit + probs[i];
      i := i + 1;
    }
    r := fallback;
  }

  /** A zero probability makes an empty interval: its index is never chosen
      by the loop. */
  lemma ZeroProbabilityNeverCovers(probs: seq<real>, draw: real, i: nat)
    requires i < |probs| && probs[i] == 0.0
    ensures !Covers(probs, draw, i)
  {
    assert probs[..i + 1][..i] == probs[..i];
  }

  /** `choose_index` does not return an index whose probability is 0,
      whatever the draw, unless that index is also the fallback. */
  lemma ZeroProbabilityNeverChosen(probs: seq<real>, draw: real, fallback: int, i: nat)
    requires i < |probs| && probs[i] == 0.0
    ensures Chosen(probs, draw, fallback) != i || fallback == i
  {
    ZeroProbabilityNeverCovers(probs, draw, i);
  }

  /** With fallback 0 the result is always an index of a non-empty list, and
      0 for an empty one. */
  lemma ChosenInRangeFallbackZero(probs: seq<real>, draw: real)
    ensures |probs| > 0 ==> 0 <= Chosen(probs, draw, 0) < |probs|
    ensures |probs| == 0 ==> Chosen(probs, draw, 0) == 0
  {
  }

  /** With fallback -1 the result lies in [-1, len), and is -1 exactly when no
      interval contains the draw. */
  lemma ChosenFallbackMinusOne(probs: seq<real>, draw: real)
    ensures -1 <= Chosen(probs, draw, -1) < |probs|
    ensures Chosen(probs, draw, -1) == -1 <==> forall j :: 0 <= j < |probs| ==> !Covers(probs, draw, j)
  {
  }

  predicate NonNegative(probs: seq<real>)
  {
    forall k :: 0 <= k < |probs| ==> probs[k] >= 0.0
  }

  /** For non-negative probabilities and a draw in [0, total), some interval
      contains the draw, so the fallback is never used. */
  lemma {:induction false} CoveredWhenInRange(probs: seq<real>, draw: real)
    requires NonNegative(probs)
    requires 0.0 <= draw < Sum(probs)
    ensures FirstCoveringFrom(probs, draw, 0).Some?
  {
    assert probs[..|probs|] == probs;
    assert probs[..0] == [];
    // scan for the first k with draw < prefix(k); k = |probs| qualifies, and
    // interval k - 1 then contains the draw
    var k := 0;
    while k < |probs| && Prefix(probs, k) <= draw
      invariant 0 <= k <= |probs|
      invariant k > 0 ==> Prefix(probs, k - 1) <= draw
    {
      k := k + 1;
    }
    assert Prefix(probs, k) > draw;
    assert k > 0 by { assert Prefix(probs, 0) == 0.0; }
    assert Covers(probs, draw, k - 1);
  }
}
