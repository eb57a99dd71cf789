/**
 * One iteration of the training loop: choose the recurrent state, collect a
 * rollout, seed the bootstrap, run the backward pass and combine the four
 * losses into the total loss handed to the optimiser.
 */
module Train {
  import opened Rollout
  import opened Returns

  /** The training configuration used by one iteration; both value-loss coefficients default to 0.5. */
  datatype Config = Config(
    hyper: Hyper,
    numSteps: int,
    maxEpisodeLength: int,
    valueWorkerLossCoef: real := 0.5,
    valueManagerLossCoef: real := 0.5)

  /** Which recurrent state the rollout starts from: a fresh one, or the carried one with its history cut. */
  datatype StateInit = Fresh | Carried

  /**
   * How the iteration ends: the total loss is back-propagated and the
   * optimiser steps, or, when no step was recorded, every accumulator is
   * still the number 0, the total loss is a plain number with no graph, and
   * the call to `backward()` on it fails.
   */
  datatype Outcome = Optimised(total: real) | BackwardFails

  /**
   * The bootstrap values: zero after a done step, otherwise the value
   * estimates of one more forward pass on the last observation.
   */
  function Bootstrap(done: bool, estimate: ValuePair): ValuePair
  {
    if done then ValuePair(0.0, 0.0) else estimate
  }

  /**
   * What the bootstrap choice means for the returns: after a done step the
   * last returns are the last rewards, with nothing bootstrapped; otherwise
   * the returns at index T are the value estimates of the last observation,
   * and the last returns discount them by one step.
   */
  lemma TerminalReturn(tr: Trajectory, estimate: ValuePair, h: Hyper)
    requires tr.WellFormed()
    ensures 0 < tr.Length() ==>
            WorkerReturn(tr, Bootstrap(true, estimate), h, tr.Length() - 1)
            == tr.rewards[tr.Length() - 1] + h.alpha * tr.intrinsicRewards[tr.Length() - 1]
    ensures 0 < tr.Length() ==>
            ManagerReturn(tr, Bootstrap(true, estimate), h, tr.Length() - 1) == tr.rewards[tr.Length() - 1]
    ensures WorkerReturn(tr, Bootstrap(false, estimate), h, tr.Length()) == estimate.worker
    ensures ManagerReturn(tr, Bootstrap(false, estimate), h, tr.Length()) == estimate.manager
    ensures 0 < tr.Length() ==>
            ManagerReturn(tr, Bootstrap(false, estimate), h, tr.Length() - 1)
            == tr.rewards[tr.Length() - 1] + h.gammaManager * estimate.manager
  {
    var T := tr.Length();
    if 0 < T {
      var xs := WorkerRewards(tr, h.alpha);
      assert xs[T - 1] == tr.rewards[T - 1] + h.alpha * tr.intrinsicRewards[T - 1];
      ReturnStep(xs, h.gammaWorker, 0.0, T - 1);
      ReturnStep(tr.rewards, h.gammaManager, 0.0, T - 1);
      ReturnStep(tr.rewards, h.gammaManager, estimate.manager, T - 1);
    }
  }

  /** The loss the optimiser minimises. */
  function TotalLoss(l: Losses, valueManagerLossCoef: real, valueWorkerLossCoef: real): real
  {
    l.policy + l.manager + valueManagerLossCoef * l.valueManager + valueWorkerLossCoef * l.valueWorker
  }

  /**
   * With non-negative value-loss coefficients the total loss is at least the
   * sum of the policy and manager losses, and an empty rollout has total loss 0.
   */
  lemma TotalLossBounds(tr: Trajectory, b: ValuePair, cfg: Config)
    requires tr.WellFormed()
    requires cfg.valueWorkerLossCoef >= 0.0 && cfg.valueManagerLossCoef >= 0.0
    ensures var l := EstimatedLosses(tr, b, cfg.hyper);
            TotalLoss(l, cfg.valueManagerLossCoef, cfg.valueWorkerLossCoef) >= l.policy + l.manager
    ensures tr.Length() == 0 ==>
            TotalLoss(EstimatedLosses(tr, b, cfg.hyper), cfg.valueManagerLossCoef, cfg.valueWorkerLossCoef) == 0.0
  {
  }

  /**
   * One iteration of the training loop: the recurrent state is fresh exactly
   * when the previous iteration ended an episode, the rollout is collected,
   * the bootstrap is seeded from how it ended, and the four losses are
   * combined. The backward call fails exactly when no step was recorded,
   * which happens exactly when `num_steps <= 0`.
   */
  method TrainIteration(st: TrainerState, cfg: Config, outs: seq<StepOutput>, env: seq<EnvStep>,
                        estimate: ValuePair)
    returns (init: StateInit, tr: Trajectory, st': TrainerState, l: Losses, outcome: Outcome)
    requires Valid(st, cfg.maxEpisodeLength)
    requires Steps(cfg.numSteps) <= |outs| && Steps(cfg.numSteps) <= |env|
    ensures init == (if st.done then Fresh else Carried)
    ensures init == Fresh <==> st.episodeLength == 0
    ensures Collected(st, cfg.numSteps, cfg.maxEpisodeLength, outs, env, tr, st')
    ensures Valid(st', cfg.maxEpisodeLength)
    ensures l == EstimatedLosses(tr, Bootstrap(st'.done, estimate), cfg.hyper)
    ensures outcome == BackwardFails <==> tr.Length() == 0
    ensures outcome == BackwardFails <==> cfg.numSteps <= 0
    ensures outcome.Optimised? ==> outcome.total == TotalLoss(l, cfg.valueManagerLossCoef, cfg.valueWorkerLossCoef)
  {
    if st.done {
      init := Fresh;
    } else {
      init := Carried;
    }
    tr, st' := Collect(st, cfg.numSteps, cfg.maxEpisodeLength, outs, env);
    var bootstrap := Bootstrap(st'.done, estimate);
    l := EstimateLosses(tr, bootstrap, cfg.hyper);
    var total := TotalLoss(l, cfg.valueManagerLossCoef, cfg.valueWorkerLossCoef);
    if tr.Length() == 0 {
      outcome := BackwardFails;
    } else {
      outcome := Optimised(total);
    }
  }

  /**
   * Two runs of one iteration from the same state, with the same sampled
   * actions, network outputs and environment, end the same way, with the
   * same total loss, and leave the same carried state.
   */
  method RunTwice(st: TrainerState, cfg: Config, outs: seq<StepOutput>, env: seq<EnvStep>,
                  estimate: ValuePair)
    returns (outcome1: Outcome, outcome2: Outcome, st1: TrainerState, st2: TrainerState)
    requires Valid(st, cfg.maxEpisodeLength)
    requires Steps(cfg.numSteps) <= |outs| && Steps(cfg.numSteps) <= |env|
    ensures outcome1 == outcome2 && st1 == st2
  {
    var init1, tr1, l1;
    init1, tr1, st1, l1, outcome1 := TrainIteration(st, cfg, outs, env, estimate);
    var init2, tr2, l2;
    init2, tr2, st2, l2, outcome2 := TrainIteration(st, cfg, outs, env, estimate);
    CollectedDeterministic(st, cfg.numSteps, cfg.maxEpisodeLength, outs, env, tr1, st1, tr2, st2);
  }
}
