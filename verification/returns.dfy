/**
 * Return and advantage estimation: the backward pass over a collected
 * trajectory that builds the bootstrapped returns of the worker and the
 * manager, the worker's generalised advantage estimate (GAE), and the four
 * loss accumulators.
 *
 * The specification is written in closed form (discounted sums over the
 * remaining steps); the backward loop of `EstimateLosses` is proved to
 * compute exactly those sums.
 */
module Returns {
  import opened Rollout

  /** A pair of worker and manager values, used for the bootstrap. */
  datatype ValuePair = ValuePair(worker: real, manager: real)

  /** Coefficients of the backward pass; `horizon` is the manager horizon `c`. */
  datatype Hyper = Hyper(
    alpha: real,            // intrinsic reward multiplier
    entropyCoef: real,      // weight of the entropy regulariser
    tauWorker: real,        // GAE smoothing
    gammaWorker: real,      // worker discount
    gammaManager: real,     // manager discount
    horizon: nat)
  {
    /** The per-step decay of the GAE accumulator. */
    function GaeDiscount(): real
    {
      gammaWorker * tauWorker
    }
  }

  /** The four loss accumulators at the end of the backward pass. */
  datatype Losses = Losses(policy: real, manager: real, valueWorker: real, valueManager: real)

  function Pow(x: real, n: nat): real
  {
    if n == 0 then 1.0 else x * Pow(x, n - 1)
  }

  /** xs[i] + g*xs[i+1] + ... + g^(j-1-i)*xs[j-1] */
  function DiscountedSum(xs: seq<real>, g: real, i: nat, j: nat): real
    requires i <= j <= |xs|
    decreases j
  {
    if j == i then 0.0 else DiscountedSum(xs, g, i, j - 1) + Pow(g, j - 1 - i) * xs[j - 1]
  }

  /** Peeling off the first term: the backward recurrence the closed form satisfies. */
  lemma {:induction false} DiscountedSumHead(xs: seq<real>, g: real, i: nat, j: nat)
    requires i < j <= |xs|
    ensures DiscountedSum(xs, g, i, j) == xs[i] + g * DiscountedSum(xs, g, i + 1, j)
    decreases j
  {
    if j == i + 1 {
      assert DiscountedSum(xs, g, i, j) == DiscountedSum(xs, g, i, i) + Pow(g, 0) * xs[i];
    } else {
      DiscountedSumHead(xs, g, i, j - 1);
      var a, p := DiscountedSum(xs, g, i + 1, j - 1), Pow(g, j - 1 - (i + 1));
      assert Pow(g, j - 1 - i) == g * p;
      calc {
        DiscountedSum(xs, g, i, j);
        DiscountedSum(xs, g, i, j - 1) + g * p * xs[j - 1];
        xs[i] + g * a + g * p * xs[j - 1];
        xs[i] + g * (a + p * xs[j - 1]);
        xs[i] + g * DiscountedSum(xs, g, i + 1, j);
      }
    }
  }

  /**
   * The bootstrapped discounted return from step `i` of a rollout of length
   * T = |xs|: sum over k in [i, T) of g^(k-i)*xs[k], plus g^(T-i)*boot.
   */
  function Return(xs: seq<real>, g: real, boot: real, i: nat): real
    requires i <= |xs|
  {
    DiscountedSum(xs, g, i, |xs|) + Pow(g, |xs| - i) * boot
  }

  /** The closed-form return obeys R_i = xs[i] + g*R_(i+1), and R_T is the bootstrap. */
  lemma ReturnStep(xs: seq<real>, g: real, boot: real, i: nat)
    requires i < |xs|
    ensures Return(xs, g, boot, i) == xs[i] + g * Return(xs, g, boot, i + 1)
  {
    DiscountedSumHead(xs, g, i, |xs|);
    var s, p := DiscountedSum(xs, g, i + 1, |xs|), Pow(g, |xs| - (i + 1));
    assert Pow(g, |xs| - i) == g * p;
    assert g * (s + p * boot) == g * s + g * (p * boot);
  }

  /** Rewards [1, 0, 1], discount 0.9 and a zero bootstrap give returns 1.81, 0.9 and 1. */
  lemma ReturnExample()
    ensures Return([1.0, 0.0, 1.0], 0.9, 0.0, 2) == 1.0
    ensures Return([1.0, 0.0, 1.0], 0.9, 0.0, 1) == 0.9
    ensures Return([1.0, 0.0, 1.0], 0.9, 0.0, 0) == 1.81
  {
    var xs := [1.0, 0.0, 1.0];
    ReturnStep(xs, 0.9, 0.0, 2);
    ReturnStep(xs, 0.9, 0.0, 1);
    ReturnStep(xs, 0.9, 0.0, 0);
  }

  /** Sum over k in [i, |xs|) of 1/2 * (Return(k) - values[k])^2. */
  function ValueLoss(xs: seq<real>, g: real, boot: real, values: seq<real>, i: nat): (r: real)
    requires i <= |xs| <= |values|
    ensures r >= 0.0
    decreases |xs| - i
  {
    if i == |xs| then 0.0
    else
      var advantage := Return(xs, g, boot, i) - values[i];
      ValueLoss(xs, g, boot, values, i + 1) + 0.5 * (advantage * advantage)
  }

  /** One-step TD residuals xs[k] + g*values[k+1] - values[k]; `values` holds the bootstrap at the end. */
  function TdResiduals(xs: seq<real>, g: real, values: seq<real>): (ds: seq<real>)
    requires |values| == |xs| + 1
    ensures |ds| == |xs|
  {
    seq(|xs|, k requires 0 <= k < |xs| => xs[k] + g * values[k + 1] - values[k])
  }

  /** Worker rewards: the clipped reward plus alpha times the intrinsic reward. */
  function WorkerRewards(tr: Trajectory, alpha: real): (xs: seq<real>)
    requires tr.WellFormed()
    ensures |xs| == tr.Length()
  {
    seq(tr.Length(), k requires 0 <= k < tr.Length() => tr.rewards[k] + alpha * tr.intrinsicRewards[k])
  }

  /** The worker value list once the bootstrap is appended as element T. */
  function WorkerValues(tr: Trajectory, b: ValuePair): seq<real>
  {
    tr.valuesWorker + [b.worker]
  }

  /** The manager value list once the bootstrap is appended as element T. */
  function ManagerValues(tr: Trajectory, b: ValuePair): seq<real>
  {
    tr.valuesManager + [b.manager]
  }

  function WorkerReturn(tr: Trajectory, b: ValuePair, h: Hyper, i: nat): real
    requires tr.WellFormed() && i <= tr.Length()
  {
    Return(WorkerRewards(tr, h.alpha), h.gammaWorker, b.worker, i)
  }

  function ManagerReturn(tr: Trajectory, b: ValuePair, h: Hyper, i: nat): real
    requires tr.WellFormed() && i <= tr.Length()
  {
    Return(tr.rewards, h.gammaManager, b.manager, i)
  }

  function ManagerAdvantage(tr: Trajectory, b: ValuePair, h: Hyper, i: nat): real
    requires tr.WellFormed() && i < tr.Length()
  {
    ManagerReturn(tr, b, h, i) - tr.valuesManager[i]
  }

  /** Worker GAE at step i: sum over k in [i, T) of (gammaWorker*tauWorker)^(k-i) * delta_k. */
  function WorkerGae(tr: Trajectory, b: ValuePair, h: Hyper, i: nat): real
    requires tr.WellFormed() && i <= tr.Length()
  {
    DiscountedSum(TdResiduals(WorkerRewards(tr, h.alpha), h.gammaWorker, WorkerValues(tr, b)),
                  h.GaeDiscount(), i, tr.Length())
  }

  /** Sum over k in [i, T) of -(logProbs[k]*gae_k) - entropyCoef*entropies[k]. */
  function PolicyLoss(tr: Trajectory, b: ValuePair, h: Hyper, i: nat): real
    requires tr.WellFormed() && i <= tr.Length()
    decreases tr.Length() - i
  {
    if i == tr.Length() then 0.0
    else PolicyLoss(tr, b, h, i + 1) - tr.logProbs[i] * WorkerGae(tr, b, h, i)
         - h.entropyCoef * tr.entropies[i]
  }

  /**
   * Sum over k in [i, T) of -(A_k * managerPartialLoss[k + c]), where A_k is the
   * manager advantage, taking only the steps with k + c < T.
   */
  function ManagerLoss(tr: Trajectory, b: ValuePair, h: Hyper, i: nat): real
    requires tr.WellFormed() && i <= tr.Length()
    decreases tr.Length() - i
  {
    if i == tr.Length() then 0.0
    else if i + h.horizon < tr.Length() then
      ManagerLoss(tr, b, h, i + 1) - ManagerAdvantage(tr, b, h, i) * tr.managerPartialLoss[i + h.horizon]
    else ManagerLoss(tr, b, h, i + 1)
  }

  /** The losses a backward pass over `tr` with bootstrap `b` accumulates. */
  function EstimatedLosses(tr: Trajectory, b: ValuePair, h: Hyper): Losses
    requires tr.WellFormed()
  {
    Losses(
      PolicyLoss(tr, b, h, 0),
      ManagerLoss(tr, b, h, 0),
      ValueLoss(WorkerRewards(tr, h.alpha), h.gammaWorker, b.worker, tr.valuesWorker, 0),
      ValueLoss(tr.rewards, h.gammaManager, b.manager, tr.valuesManager, 0))
  }

  /**
   * The backward pass: append the bootstrap to both value lists, then walk
   * i = T-1 down to 0 updating the two returns, the GAE accumulator and the
   * four losses.
   */
  method EstimateLosses(tr: Trajectory, b: ValuePair, h: Hyper) returns (l: Losses)
    requires tr.WellFormed()
    ensures l == EstimatedLosses(tr, b, h)
    ensures tr.Length() == 0 ==> l == Losses(0.0, 0.0, 0.0, 0.0)
    ensures l.valueWorker >= 0.0 && l.valueManager >= 0.0
  {
    var valuesWorker := tr.valuesWorker + [b.worker];
    var valuesManager := tr.valuesManager + [b.manager];
    var rWorker, rManager := b.worker, b.manager;
    var policyLoss, managerLoss, valueManagerLoss, valueWorkerLoss := 0.0, 0.0, 0.0, 0.0;
    var gaeWorker := 0.0;
    ghost var xs := WorkerRewards(tr, h.alpha);
    var i := |tr.rewards|;
    while i > 0
      invariant 0 <= i <= tr.Length()
      invariant valuesWorker == WorkerValues(tr, b) && valuesManager == ManagerValues(tr, b)
      invariant rWorker == WorkerReturn(tr, b, h, i)
      invariant rManager == ManagerReturn(tr, b, h, i)
      invariant gaeWorker == WorkerGae(tr, b, h, i)
      invariant valueWorkerLoss == ValueLoss(xs, h.gammaWorker, b.worker, tr.valuesWorker, i)
      invariant valueManagerLoss == ValueLoss(tr.rewards, h.gammaManager, b.manager, tr.valuesManager, i)
      invariant policyLoss == PolicyLoss(tr, b, h, i)
      invariant managerLoss == ManagerLoss(tr, b, h, i)
    {
      i := i - 1;
      BackwardStep(tr, b, h, i, rWorker, rManager, gaeWorker);
      rWorker := h.gammaWorker * rWorker + tr.rewards[i] + h.alpha * tr.intrinsicRewards[i];
      rManager := h.gammaManager * rManager + tr.rewards[i];
      assert valuesWorker[i] == tr.valuesWorker[i] && valuesManager[i] == tr.valuesManager[i];
      var advantageWorker := rWorker - valuesWorker[i];
      var advantageManager := rManager - valuesManager[i];
      ValueLossStep(xs, h.gammaWorker, b.worker, tr.valuesWorker, i, advantageWorker);
      ValueLossStep(tr.rewards, h.gammaManager, b.manager, tr.valuesManager, i, advantageManager);
      valueWorkerLoss := valueWorkerLoss + 0.5 * (advantageWorker * advantageWorker);
      valueManagerLoss := valueManagerLoss + 0.5 * (advantageManager * advantageManager);

      var deltaWorker := tr.rewards[i] + h.alpha * tr.intrinsicRewards[i]
                         + h.gammaWorker * valuesWorker[i + 1] - valuesWorker[i];
      gaeWorker := gaeWorker * h.gammaWorker * h.tauWorker + deltaWorker;
      assert deltaWorker == tr.rewards[i] + h.alpha * tr.intrinsicRewards[i]
               + h.gammaWorker * WorkerValues(tr, b)[i + 1] - WorkerValues(tr, b)[i];

      PolicyLossStep(tr, b, h, i, gaeWorker);
      policyLoss := policyLoss - tr.logProbs[i] * gaeWorker - h.entropyCoef * tr.entropies[i];

      ManagerLossStep(tr, b, h, i, advantageManager);
      if i + h.horizon < |tr.rewards| {
        managerLoss := managerLoss - advantageManager * tr.managerPartialLoss[i + h.horizon];
      }
    }
    l := Losses(policyLoss, managerLoss, valueWorkerLoss, valueManagerLoss);
  }

  /** One iteration of the backward loop, in the shape the loop computes it. */
  lemma BackwardStep(tr: Trajectory, b: ValuePair, h: Hyper, i: nat, rWorker: real, rManager: real, gae: real)
    requires tr.WellFormed() && i < tr.Length()
    requires rWorker == WorkerReturn(tr, b, h, i + 1)
    requires rManager == ManagerReturn(tr, b, h, i + 1)
    requires gae == WorkerGae(tr, b, h, i + 1)
    ensures h.gammaWorker * rWorker + tr.rewards[i] + h.alpha * tr.intrinsicRewards[i] == WorkerReturn(tr, b, h, i)
    ensures h.gammaManager * rManager + tr.rewards[i] == ManagerReturn(tr, b, h, i)
    ensures gae * h.gammaWorker * h.tauWorker
            + (tr.rewards[i] + h.alpha * tr.intrinsicRewards[i]
               + h.gammaWorker * WorkerValues(tr, b)[i + 1] - WorkerValues(tr, b)[i])
         == WorkerGae(tr, b, h, i)
  {
    var xs := WorkerRewards(tr, h.alpha);
    assert xs[i] == tr.rewards[i] + h.alpha * tr.intrinsicRewards[i];
    ReturnStep(xs, h.gammaWorker, b.worker, i);
    ReturnStep(tr.rewards, h.gammaManager, b.manager, i);
    WorkerGaeStep(tr, b, h, i);
  }

  // The three lemmas below unfold one accumulator's definition at the loop
  // index, phrased over the loop's own variables so that the loop proof stays
  // within its resource budget.

  lemma ValueLossStep(xs: seq<real>, g: real, boot: real, values: seq<real>, i: nat, advantage: real)
    requires i < |xs| <= |values|
    requires advantage == Return(xs, g, boot, i) - values[i]
    ensures ValueLoss(xs, g, boot, values, i) == ValueLoss(xs, g, boot, values, i + 1) + 0.5 * (advantage * advantage)
  {
  }

  lemma PolicyLossStep(tr: Trajectory, b: ValuePair, h: Hyper, i: nat, gae: real)
    requires tr.WellFormed() && i < tr.Length()
    requires gae == WorkerGae(tr, b, h, i)
    ensures PolicyLoss(tr, b, h, i)
         == PolicyLoss(tr, b, h, i + 1) - tr.logProbs[i] * gae - h.entropyCoef * tr.entropies[i]
  {
  }

  lemma ManagerLossStep(tr: Trajectory, b: ValuePair, h: Hyper, i: nat, advantage: real)
    requires tr.WellFormed() && i < tr.Length()
    requires advantage == ManagerAdvantage(tr, b, h, i)
    ensures ManagerLoss(tr, b, h, i)
         == if i + h.horizon < tr.Length()
            then ManagerLoss(tr, b, h, i + 1) - advantage * tr.managerPartialLoss[i + h.horizon]
            else ManagerLoss(tr, b, h, i + 1)
  {
  }

  /** The GAE accumulator's backward recurrence: gae_i = delta_i + gammaWorker*tauWorker*gae_(i+1). */
  lemma WorkerGaeStep(tr: Trajectory, b: ValuePair, h: Hyper, i: nat)
    requires tr.WellFormed() && i < tr.Length()
    ensures WorkerGae(tr, b, h, i)
         == tr.rewards[i] + h.alpha * tr.intrinsicRewards[i]
            + h.gammaWorker * WorkerValues(tr, b)[i + 1] - tr.valuesWorker[i]
            + h.GaeDiscount() * WorkerGae(tr, b, h, i + 1)
  {
    var xs := WorkerRewards(tr, h.alpha);
    var ds := TdResiduals(xs, h.gammaWorker, WorkerValues(tr, b));
    DiscountedSumHead(ds, h.GaeDiscount(), i, tr.Length());
    assert xs[i] == tr.rewards[i] + h.alpha * tr.intrinsicRewards[i];
    assert ds[i] == xs[i] + h.gammaWorker * WorkerValues(tr, b)[i + 1] - WorkerValues(tr, b)[i];
    assert WorkerValues(tr, b)[i] == tr.valuesWorker[i];
  }

  /** With tauWorker = 0 the GAE is the plain one-step TD residual at every step. */
  lemma GaeWithoutSmoothing(tr: Trajectory, b: ValuePair, h: Hyper, i: nat)
    requires tr.WellFormed() && i < tr.Length() && h.tauWorker == 0.0
    ensures WorkerGae(tr, b, h, i)
         == tr.rewards[i] + h.alpha * tr.intrinsicRewards[i]
            + h.gammaWorker * WorkerValues(tr, b)[i + 1] - tr.valuesWorker[i]
  {
    WorkerGaeStep(tr, b, h, i);
  }

  /**
   * With tauWorker = 1 the TD residuals telescope: the GAE at step i is the
   * worker return minus the worker value estimate, the worker advantage.
   */
  lemma {:induction false} GaeTelescopes(tr: Trajectory, b: ValuePair, h: Hyper, i: nat)
    requires tr.WellFormed() && i <= tr.Length() && h.tauWorker == 1.0
    ensures WorkerGae(tr, b, h, i) == WorkerReturn(tr, b, h, i) - WorkerValues(tr, b)[i]
    decreases tr.Length() - i
  {
    var xs, g := WorkerRewards(tr, h.alpha), h.gammaWorker;
    if i == tr.Length() {
      assert WorkerReturn(tr, b, h, i) == b.worker;
    } else {
      GaeTelescopes(tr, b, h, i + 1);
      WorkerGaeStep(tr, b, h, i);
      ReturnStep(xs, g, b.worker, i);
    }
  }

  /** With alpha = 0 the worker return is the plain bootstrapped return of the clipped rewards. */
  lemma WorkerReturnWithoutIntrinsic(tr: Trajectory, b: ValuePair, h: Hyper, i: nat)
    requires tr.WellFormed() && i <= tr.Length() && h.alpha == 0.0
    ensures WorkerReturn(tr, b, h, i) == Return(tr.rewards, h.gammaWorker, b.worker, i)
  {
    assert WorkerRewards(tr, h.alpha) == tr.rewards;
  }

  /** Sum over k in [i, hi) of -(A_k * managerPartialLoss[k + c]): the manager loss without its guard. */
  function ManagerWindow(tr: Trajectory, b: ValuePair, h: Hyper, i: nat, hi: nat): real
    requires tr.WellFormed() && i <= hi && hi + h.horizon <= tr.Length()
    decreases hi - i
  {
    if i == hi then 0.0
    else ManagerWindow(tr, b, h, i + 1, hi) - ManagerAdvantage(tr, b, h, i) * tr.managerPartialLoss[i + h.horizon]
  }

  /**
   * The manager loss has a term for step i exactly when i + c < T: from step i
   * on it is the unguarded sum over [i, T - c), and zero when i + c >= T.
   */
  lemma {:induction false} ManagerLossWindow(tr: Trajectory, b: ValuePair, h: Hyper, i: nat)
    requires tr.WellFormed() && i <= tr.Length()
    ensures i + h.horizon < tr.Length() ==>
              ManagerLoss(tr, b, h, i) == ManagerWindow(tr, b, h, i, tr.Length() - h.horizon)
    ensures tr.Length() <= i + h.horizon ==> ManagerLoss(tr, b, h, i) == 0.0
    decreases tr.Length() - i
  {
    if i < tr.Length() {
      ManagerLossWindow(tr, b, h, i + 1);
    }
  }

  /** A rollout no longer than the horizon contributes nothing to the manager loss. */
  lemma ManagerLossVanishes(tr: Trajectory, b: ValuePair, h: Hyper)
    requires tr.WellFormed() && tr.Length() <= h.horizon
    ensures EstimatedLosses(tr, b, h).manager == 0.0
  {
    ManagerLossWindow(tr, b, h, 0);
  }

  /**
   * With two more recorded steps than the horizon (horizon 3 and 5 steps, say),
   * only steps 0 and 1 contribute, each with the entry c steps later.
   */
  lemma ManagerLossTwoTerms(tr: Trajectory, b: ValuePair, h: Hyper)
    requires tr.WellFormed() && tr.Length() == h.horizon + 2
    ensures EstimatedLosses(tr, b, h).manager
         == -(ManagerAdvantage(tr, b, h, 0) * tr.managerPartialLoss[h.horizon])
            - ManagerAdvantage(tr, b, h, 1) * tr.managerPartialLoss[h.horizon + 1]
  {
    ManagerLossWindow(tr, b, h, 0);
    var t0 := ManagerAdvantage(tr, b, h, 0) * tr.managerPartialLoss[h.horizon];
    var t1 := ManagerAdvantage(tr, b, h, 1) * tr.managerPartialLoss[h.horizon + 1];
    assert ManagerWindow(tr, b, h, 1, 2) == 0.0 - t1;
    assert ManagerWindow(tr, b, h, 0, 2) == 0.0 - t1 - t0;
  }

  /** An empty rollout leaves all four losses at zero. */
  lemma EmptyRolloutLosses(tr: Trajectory, b: ValuePair, h: Hyper)
    requires tr.WellFormed() && tr.Length() == 0
    ensures EstimatedLosses(tr, b, h) == Losses(0.0, 0.0, 0.0, 0.0)
  {
  }
}
