/**
 * The per-iteration bookkeeping of the optimiser in BarnesHutTsne.java: the gain
 * update of `update(INDArray, String)`, the velocity (`yIncs`) and position (`Y`)
 * updates, and the momentum and exaggeration schedule of `fit()`. All arrays are
 * element-wise here, so a matrix is its row-major sequence of entries.
 */
module Optimizer {
  import opened Common

  /** An array of n copies of v (`zeros` and `ones` of lines 676 and 678). */
  function Constant(n: nat, v: real): (s: seq<real>)
    ensures |s| == n && forall j :: 0 <= j < n ==> s[j] == v
  {
    seq(n, j => v)
  }

  /** `Transforms.sign`: -1, 0 or 1. */
  function Sign(x: real): (s: real)
    ensures s == 1.0 || s == -1.0 || s == 0.0
    ensures (s == 0.0 <==> x == 0.0) && 0.0 <= s * x
  {
    if x > 0.0 then 1.0 else if x < 0.0 then -1.0 else 0.0
  }

  /** `neqi` against an array: 1 where the entries differ, 0 where they are equal. */
  function Differs(a: real, b: real): (d: real)
    ensures d == 0.0 || d == 1.0
    ensures d == 1.0 <==> a != b
  {
    if a != b then 1.0 else 0.0
  }

  /**
   * The gain of one coordinate after line 494, before the clamp: the sum of two
   * 0/1 masks, (g + 0.2) * sign(grad) != sign(inc) and (0.8 * g) * sign(grad) != sign(inc).
   */
  function RawGain(g: real, grad: real, inc: real): (r: real)
    ensures r == 0.0 || r == 1.0 || r == 2.0
  {
    Differs((g + 0.2) * Sign(grad), Sign(inc)) + Differs(g * 0.8 * Sign(grad), Sign(inc))
  }

  /**
   * What the masks amount to. With a zero gradient both products are 0, so the
   * gain is 0 when the velocity is also 0 and 2 otherwise. With a non-zero gradient
   * and a positive gain other than 0.8 and 1.25, neither product can equal a sign,
   * so the gain is 2 whatever the velocity: it is not the x0.8 / +0.2 rule.
   */
  lemma RawGainCases(g: real, grad: real, inc: real)
    ensures grad == 0.0 ==> RawGain(g, grad, inc) == (if inc == 0.0 then 0.0 else 2.0)
    ensures grad != 0.0 && 0.0 < g && g != 0.8 && g != 1.25 ==> RawGain(g, grad, inc) == 2.0
    ensures grad != 0.0 && g == 0.8 ==> RawGain(g, grad, inc) == (if Sign(grad) == Sign(inc) then 1.0 else 2.0)
  {
    if grad != 0.0 && 0.0 < g {
      assert (g + 0.2) * Sign(grad) == g + 0.2 || (g + 0.2) * Sign(grad) == -(g + 0.2);
      assert g * 0.8 * Sign(grad) == g * 0.8 || g * 0.8 * Sign(grad) == -(g * 0.8);
    }
  }

  /** Line 497: a gain below `minGain` is replaced by `minGain`. */
  function ClampGain(raw: real, minGain: real): (r: real)
    ensures minGain <= r
    ensures r == raw || r == minGain
  {
    if raw < minGain then minGain else raw
  }

  /**
   * The `gains` array after lines 494-497: every gain is at least `minGain`, and
   * is either `minGain` or one of the mask sums 0, 1 or 2.
   */
  function NextGains(gains: seq<real>, grads: seq<real>, incs: seq<real>, minGain: real): (next: seq<real>)
    requires |gains| == |grads| == |incs|
    ensures |next| == |gains|
    ensures forall j :: 0 <= j < |next| ==> minGain <= next[j]
    ensures forall j :: 0 <= j < |next| ==> next[j] == minGain || next[j] == 0.0 || next[j] == 1.0 || next[j] == 2.0
    ensures forall j :: 0 <= j < |next| ==> next[j] == ClampGain(RawGain(gains[j], grads[j], incs[j]), minGain)
  {
    seq(|gains|, j requires 0 <= j < |gains| => ClampGain(RawGain(gains[j], grads[j], incs[j]), minGain))
  }

  /**
   * From the all-ones start of lines 677-678 the gains reach 2 on the first update and
   * stay there as long as no gradient entry is zero and `minGain` is at most 2.
   */
  lemma GainsSettleAtTwo(gains: seq<real>, grads: seq<real>, incs: seq<real>, minGain: real)
    requires |gains| == |grads| == |incs|
    requires forall j :: 0 <= j < |gains| ==> gains[j] == 1.0 || gains[j] == 2.0
    requires forall j :: 0 <= j < |grads| ==> grads[j] != 0.0
    requires minGain <= 2.0
    ensures forall j :: 0 <= j < |gains| ==> NextGains(gains, grads, incs, minGain)[j] == 2.0
  {
    forall j | 0 <= j < |gains|
      ensures NextGains(gains, grads, incs, minGain)[j] == 2.0
    {
      RawGainCases(gains[j], grads[j], incs[j]);
    }
  }

  /** `gains.mul(yGrads)` (line 500): the gradient scaled coordinate by coordinate by the gains. */
  function Products(gains: seq<real>, grads: seq<real>): (r: seq<real>)
    requires |gains| == |grads|
    ensures |r| == |gains|
    ensures forall j :: 0 <= j < |r| ==> r[j] == gains[j] * grads[j]
  {
    seq(|gains|, j requires 0 <= j < |gains| => gains[j] * grads[j])
  }

  /** The step without AdaGrad (lines 500 and 510): the products scaled by the learning rate. */
  function ScaledStep(gains: seq<real>, grads: seq<real>, learningRate: real): (change: seq<real>)
    requires |gains| == |grads|
    ensures |change| == |gains|
    ensures forall j :: 0 <= j < |change| ==> change[j] == gains[j] * grads[j] * learningRate
  {
    ScaleAll(Products(gains, grads), learningRate)
  }

  /**
   * The step `gradChange` of lines 500-510: the products handed to AdaGrad when it
   * is on, scaled by the learning rate otherwise. AdaGrad is a parameter that keeps
   * the length of what it is given.
   */
  function GradChange(gains: seq<real>, grads: seq<real>, learningRate: real, useAdaGrad: bool,
                      adaGrad: seq<real> -> seq<real>): (change: seq<real>)
    requires |gains| == |grads|
    requires forall g :: |adaGrad(g)| == |g|
    ensures |change| == |gains|
  {
    if useAdaGrad then adaGrad(Products(gains, grads))
    else ScaledStep(gains, grads, learningRate)
  }

  /** `yIncs.muli(momentum).subi(gradChange)` (line 512). */
  function NextIncs(incs: seq<real>, momentum: real, change: seq<real>): (next: seq<real>)
    requires |incs| == |change|
    ensures |next| == |incs|
    ensures forall j :: 0 <= j < |next| ==> next[j] == incs[j] * momentum - change[j]
  {
    seq(|incs|, j requires 0 <= j < |incs| => incs[j] * momentum - change[j])
  }

  /** `Y.addi(yIncs)` (line 513). */
  function Advance(y: seq<real>, incs: seq<real>): (next: seq<real>)
    requires |y| == |incs|
    ensures |next| == |y|
    ensures forall j :: 0 <= j < |next| ==> next[j] == y[j] + incs[j]
  {
    seq(|y|, j requires 0 <= j < |y| => y[j] + incs[j])
  }

  /** What one step of the optimiser changes: the positions Y, the gains and the velocities `yIncs`. */
  datatype OptState = OptState(y: seq<real>, gains: seq<real>, incs: seq<real>)

  /**
   * One `update(INDArray, String)` (lines 494-513) from state s with gradient `grad`:
   * new gains first, then the velocity from them, then the positions from the new
   * velocity. Every new gain is at least `minGain`.
   */
  function UpdateState(s: OptState, grad: seq<real>, momentum: real, minGain: real, learningRate: real,
                       useAdaGrad: bool, adaGrad: seq<real> -> seq<real>): (r: OptState)
    requires |s.y| == |s.gains| == |s.incs| == |grad|
    requires forall g :: |adaGrad(g)| == |g|
    ensures |r.y| == |r.gains| == |r.incs| == |s.y|
    ensures forall j :: 0 <= j < |r.gains| ==> minGain <= r.gains[j]
  {
    var gains := NextGains(s.gains, grad, s.incs, minGain);
    var incs := NextIncs(s.incs, momentum, GradChange(gains, grad, learningRate, useAdaGrad, adaGrad));
    OptState(Advance(s.y, incs), gains, incs)
  }

  /**
   * Lines 494-497 on arrays: the mask sums go into a fresh array, which is then
   * clamped at `minGain` in place.
   */
  method NextGainsArray(gains: array<real>, incs: array<real>, grads: seq<real>, minGain: real)
    returns (next: array<real>)
    requires gains.Length == incs.Length == |grads|
    ensures fresh(next)
    ensures next[..] == NextGains(gains[..], grads, incs[..], minGain)
  {
    var n := gains.Length;
    next := new real[n];
    forall j | 0 <= j < n {
      next[j] := RawGain(gains[j], grads[j], incs[j]);
    }
    ghost var raw := next[..];
    forall j | 0 <= j < n {
      next[j] := if next[j] < minGain then minGain else next[j];
    }
    assert forall j :: 0 <= j < n ==> next[j] == ClampGain(raw[j], minGain);
  }

  /** Line 512 in place: the velocity is damped by the momentum, then the step is subtracted. */
  method StepVelocity(incs: array<real>, momentum: real, change: seq<real>)
    requires incs.Length == |change|
    modifies incs
    ensures incs[..] == NextIncs(old(incs[..]), momentum, change)
  {
    ghost var target := NextIncs(incs[..], momentum, change);
    forall j | 0 <= j < incs.Length {
      incs[j] := incs[j] * momentum - change[j];
    }
    assert forall j :: 0 <= j < incs.Length ==> incs[j] == target[j];
  }

  /** Line 513 in place: every coordinate moves by its velocity. */
  method AdvancePositions(y: array<real>, incs: array<real>)
    requires y != incs && y.Length == incs.Length
    modifies y
    ensures y[..] == Advance(old(y[..]), incs[..])
  {
    forall j | 0 <= j < y.Length {
      y[j] := y[j] + incs[j];
    }
  }

  /**
   * Without AdaGrad, from rest (zero velocity, as after the lazy start of lines 675-676)
   * with positive gains and a positive learning rate, every coordinate moves
   * against its gradient, and stays put where the gradient is zero.
   */
  lemma FirstStepDescends(y: seq<real>, gains: seq<real>, grads: seq<real>, incs: seq<real>,
                          momentum: real, learningRate: real)
    requires |y| == |gains| == |grads| == |incs|
    requires forall j :: 0 <= j < |incs| ==> incs[j] == 0.0
    requires forall j :: 0 <= j < |gains| ==> 0.0 < gains[j]
    requires 0.0 < learningRate
    ensures var y' := Advance(y, NextIncs(incs, momentum, ScaledStep(gains, grads, learningRate)));
            forall j :: 0 <= j < |y| ==> Sign(y'[j] - y[j]) == -Sign(grads[j])
  {
    var change := ScaledStep(gains, grads, learningRate);
    var y' := Advance(y, NextIncs(incs, momentum, change));
    forall j | 0 <= j < |y|
      ensures Sign(y'[j] - y[j]) == -Sign(grads[j])
    {
      assert y'[j] - y[j] == -(gains[j] * grads[j] * learningRate);
      if grads[j] > 0.0 {
        assert gains[j] * grads[j] > 0.0;
      } else if grads[j] < 0.0 {
        assert gains[j] * grads[j] < 0.0;
      }
    }
  }

  /** With a zero step, the position moves by the old velocity scaled by the momentum. */
  lemma CoastingUnderMomentum(y: seq<real>, incs: seq<real>, momentum: real, change: seq<real>)
    requires |y| == |incs| == |change|
    requires forall j :: 0 <= j < |change| ==> change[j] == 0.0
    ensures forall j :: 0 <= j < |y| ==> Advance(y, NextIncs(incs, momentum, change))[j] - y[j] == momentum * incs[j]
  {
  }

  /**
   * The momentum step i of `fit` uses (lines 457-461): the starting momentum up to
   * and including step `switchAt`, `finalMomentum` after it. A negative `switchAt`
   * never matches the counter, so the momentum never changes.
   */
  function MomentumAt(start: real, final: real, switchAt: int, i: nat): (m: real)
    ensures m == start || m == final
    ensures switchAt < 0 ==> m == start
  {
    if 0 <= switchAt < i then final else start
  }

  /**
   * The factor on the symmetrized affinities in step i (lines 456-463): x12 up to
   * and including step `stopAt`, undone right after it.
   */
  function ExaggerationAt(stopAt: int, i: nat): (f: real)
    ensures f == 1.0 || f == 12.0
    ensures f == 12.0 <==> stopAt < 0 || i <= stopAt
  {
    if 0 <= stopAt < i then 1.0 else 12.0
  }

  /**
   * The affinities step i works with: the input affinities p times the factor
   * `ExaggerationAt(stopAt, i)` (x12 by line 456, back to x1 by line 463).
   */
  function Exaggerated(p: seq<real>, stopAt: int, i: nat): (q: seq<real>)
    ensures |q| == |p|
    ensures forall j :: 0 <= j < |p| ==> q[j] == p[j] * ExaggerationAt(stopAt, i)
  {
    if 0 <= stopAt < i then p else ScaleAll(p, 12.0)
  }

  /**
   * The schedule has a single boundary each: steps 0 .. switchAt use the starting
   * momentum and every later step the final one; steps 0 .. stopAt see x12 and every
   * later step x1.
   */
  lemma ScheduleBoundaries(start: real, final: real, switchAt: int, stopAt: int, i: nat, j: nat)
    requires i <= j
    ensures MomentumAt(start, final, switchAt, i) == final && start != final ==> MomentumAt(start, final, switchAt, j) == final
    ensures i <= switchAt ==> MomentumAt(start, final, switchAt, i) == start
    ensures switchAt < i && 0 <= switchAt ==> MomentumAt(start, final, switchAt, i) == final
    ensures ExaggerationAt(stopAt, i) == 1.0 ==> ExaggerationAt(stopAt, j) == 1.0
    ensures i <= stopAt ==> ExaggerationAt(stopAt, i) == 12.0
  {
  }
}
