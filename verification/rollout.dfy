/**
 * Rollout collection of one training iteration: the episode-length counter,
 * the termination rule, reward clipping and the per-step record lists.
 *
 * The policy network, the categorical sampler and the environment are not
 * modelled; what they produce at each step is given as input (`StepOutput`,
 * `EnvStep`). Tensors of shape 1x1 are scalars, and floats are exact `real`s.
 */
module Rollout {

  /** What the network and the sampler produce at one step of the rollout. */
  datatype StepOutput = StepOutput(
    valueWorker: real,          // worker value estimate
    valueManager: real,         // manager value estimate
    actionProbs: seq<real>,     // the action distribution
    logProb: real,              // log-probability of the sampled action
    nablaDcos: real,            // manager partial-loss term of this step
    intrinsicReward: real)      // intrinsic reward on the updated recurrent state

  /** What the environment returns for one step: the raw reward and its own termination flag. */
  datatype EnvStep = EnvStep(reward: real, done: bool)

  /** State carried from one training iteration to the next. */
  datatype TrainerState = TrainerState(episodeLength: nat, done: bool)

  /** The per-step record lists, appended in parallel during the rollout. */
  datatype Trajectory = Trajectory(
    valuesWorker: seq<real>,
    valuesManager: seq<real>,
    logProbs: seq<real>,
    rewards: seq<real>,
    intrinsicRewards: seq<real>,
    entropies: seq<real>,
    managerPartialLoss: seq<real>)
  {
    /** Number of recorded steps. */
    function Length(): nat
    {
      |rewards|
    }

    /** Every list holds exactly one entry per recorded step. */
    predicate WellFormed()
    {
      && |valuesWorker| == Length()
      && |valuesManager| == Length()
      && |logProbs| == Length()
      && |intrinsicRewards| == Length()
      && |entropies| == Length()
      && |managerPartialLoss| == Length()
    }
  }

  /** The state before the first iteration: no episode is running. */
  const Start := TrainerState(0, true)

  /**
   * The invariant of the carried state: `done` holds exactly when the counter
   * is back at zero, and a running episode is shorter than the cap.
   */
  ghost predicate Valid(st: TrainerState, maxEpisodeLength: int)
  {
    && (st.done <==> st.episodeLength == 0)
    && (st.episodeLength == 0 || st.episodeLength < maxEpisodeLength)
  }

  lemma StartIsValid(maxEpisodeLength: int)
    ensures Valid(Start, maxEpisodeLength)
  {
  }

  /** `max(min(reward, 1), -1)`. */
  function Clip(reward: real): (r: real)
    ensures -1.0 <= r <= 1.0
    ensures -1.0 <= reward <= 1.0 ==> r == reward
    ensures reward > 1.0 ==> r == 1.0
    ensures reward < -1.0 ==> r == -1.0
  {
    var upper := if 1.0 < reward then 1.0 else reward;
    if -1.0 > upper then -1.0 else upper
  }

  function Sum(xs: seq<real>): real
  {
    if |xs| == 0 then 0.0 else xs[0] + Sum(xs[1..])
  }

  function Scale(c: real, xs: seq<real>): (ys: seq<real>)
  {
    seq(|xs|, k requires 0 <= k < |xs| => c * xs[k])
  }

  lemma {:induction false} SumScale(c: real, xs: seq<real>)
    ensures Sum(Scale(c, xs)) == c * Sum(xs)
  {
    if |xs| > 0 {
      assert forall k :: 0 <= k < |xs| - 1 ==> Scale(c, xs)[1..][k] == Scale(c, xs[1..])[k];
      assert Scale(c, xs)[1..] == Scale(c, xs[1..]);
      SumScale(c, xs[1..]);
    }
  }

  /** The entropy regulariser of one step: `-(log_prob * action_probs).sum()`. */
  function Entropy(logProb: real, actionProbs: seq<real>): real
  {
    -Sum(Scale(logProb, actionProbs))
  }

  /**
   * For a proper distribution the regulariser is the negated log-probability
   * of the sampled action, not the entropy of the distribution.
   */
  lemma EntropyOfDistribution(logProb: real, actionProbs: seq<real>)
    requires Sum(actionProbs) == 1.0
    ensures Entropy(logProb, actionProbs) == -logProb
  {
    SumScale(logProb, actionProbs);
  }

  /** Python's `range(numSteps)` has this many elements. */
  function Steps(numSteps: int): nat
  {
    if numSteps < 0 then 0 else numSteps
  }

  /**
   * Whether step `k` of a rollout started in `st` ends the rollout, provided no
   * earlier step did: the environment says so, or the counter, which has then
   * grown by one per step, has reached the cap.
   */
  predicate DoneAt(st: TrainerState, maxEpisodeLength: int, env: seq<EnvStep>, k: nat)
    requires k < |env|
  {
    env[k].done || st.episodeLength + k + 1 >= maxEpisodeLength
  }

  /** Step `k` of `tr` holds what the network and the environment gave at that step. */
  ghost predicate RecordedAt(tr: Trajectory, k: nat, out: StepOutput, e: EnvStep)
    requires tr.WellFormed() && k < tr.Length()
  {
    && tr.valuesWorker[k] == out.valueWorker
    && tr.valuesManager[k] == out.valueManager
    && tr.logProbs[k] == out.logProb
    && tr.entropies[k] == Entropy(out.logProb, out.actionProbs)
    && tr.managerPartialLoss[k] == out.nablaDcos
    && tr.rewards[k] == Clip(e.reward)
    && tr.intrinsicRewards[k] == out.intrinsicReward
  }

  /**
   * `tr` and `st'` are what a rollout started in `st` produces: one record per
   * step, no step before the last one is done, the rollout stops early only on
   * a done step, and the counter is reset exactly when the last step was done.
   */
  ghost predicate Collected(st: TrainerState, numSteps: int, maxEpisodeLength: int,
                            outs: seq<StepOutput>, env: seq<EnvStep>,
                            tr: Trajectory, st': TrainerState)
    requires Steps(numSteps) <= |outs| && Steps(numSteps) <= |env|
  {
    var T := tr.Length();
    && tr.WellFormed()
    && T <= Steps(numSteps)
    && (forall k :: 0 <= k < T ==> RecordedAt(tr, k, outs[k], env[k]))
    && (forall k :: 0 <= k < T - 1 ==> !DoneAt(st, maxEpisodeLength, env, k))
    && (T < Steps(numSteps) ==> 0 < T && DoneAt(st, maxEpisodeLength, env, T - 1))
    && st'.done == (if T == 0 then st.done else DoneAt(st, maxEpisodeLength, env, T - 1))
    && st'.episodeLength == (if 0 < T && st'.done then 0 else st.episodeLength + T)
  }

  /**
   * The rollout loop: up to `numSteps` steps, each one appending a record to
   * the seven parallel lists, stopping right after the first done step.
   */
  method Collect(st: TrainerState, numSteps: int, maxEpisodeLength: int,
                 outs: seq<StepOutput>, env: seq<EnvStep>)
    returns (tr: Trajectory, st': TrainerState)
    requires Valid(st, maxEpisodeLength)
    requires Steps(numSteps) <= |outs| && Steps(numSteps) <= |env|
    ensures Collected(st, numSteps, maxEpisodeLength, outs, env, tr, st')
    ensures Valid(st', maxEpisodeLength)
    ensures 1 <= numSteps ==> 1 <= tr.Length() <= numSteps
    ensures tr.Length() < numSteps ==> st'.done
  {
    var episodeLength := st.episodeLength;
    var done := st.done;
    var valuesWorker, valuesManager, logProbs := [], [], [];
    var rewards, intrinsicRewards := [], [];
    var entropies, managerPartialLoss := [], [];
    var step := 0;
    while step < numSteps
      invariant 0 <= step <= Steps(numSteps)
      invariant |valuesWorker| == |valuesManager| == |logProbs| == step
      invariant |rewards| == |intrinsicRewards| == |entropies| == |managerPartialLoss| == step
      invariant forall k :: 0 <= k < step ==>
        RecordedAt(Trajectory(valuesWorker, valuesManager, logProbs, rewards,
                              intrinsicRewards, entropies, managerPartialLoss), k, outs[k], env[k])
      invariant forall k :: 0 <= k < step ==> !DoneAt(st, maxEpisodeLength, env, k)
      invariant episodeLength == st.episodeLength + step
      invariant done == (if step == 0 then st.done else false)
    {
      episodeLength := episodeLength + 1;
      var out := outs[step];
      entropies := entropies + [Entropy(out.logProb, out.actionProbs)];
      managerPartialLoss := managerPartialLoss + [out.nablaDcos];

      var e := env[step];
      done := e.done || episodeLength >= maxEpisodeLength;
      var reward := Clip(e.reward);
      var intrinsicReward := out.intrinsicReward;

      if done {
        episodeLength := 0;
      }

      valuesManager := valuesManager + [out.valueManager];
      valuesWorker := valuesWorker + [out.valueWorker];
      logProbs := logProbs + [out.logProb];
      rewards := rewards + [reward];
      intrinsicRewards := intrinsicRewards + [intrinsicReward];
      step := step + 1;

      if done {
        break;
      }
    }
    tr := Trajectory(valuesWorker, valuesManager, logProbs, rewards,
                     intrinsicRewards, entropies, managerPartialLoss);
    st' := TrainerState(episodeLength, done);
  }

  /**
   * A reference definition of the rollout length: one past the first done
   * step, or `steps` when no step before it is done.
   */
  function StopIndex(st: TrainerState, maxEpisodeLength: int, env: seq<EnvStep>,
                     steps: nat, k: nat): (t: nat)
    requires k <= steps <= |env|
    ensures k <= t <= steps
    decreases steps - k
  {
    if k == steps then steps
    else if DoneAt(st, maxEpisodeLength, env, k) then k + 1
    else StopIndex(st, maxEpisodeLength, env, steps, k + 1)
  }

  /** The length of a collected trajectory is the first-done index of the reference definition. */
  lemma {:induction false} CollectedLength(st: TrainerState, numSteps: int, maxEpisodeLength: int,
                                           outs: seq<StepOutput>, env: seq<EnvStep>,
                                           tr: Trajectory, st': TrainerState)
    requires Steps(numSteps) <= |outs| && Steps(numSteps) <= |env|
    requires Collected(st, numSteps, maxEpisodeLength, outs, env, tr, st')
    ensures tr.Length() == StopIndex(st, maxEpisodeLength, env, Steps(numSteps), 0)
  {
    var T := tr.Length();
    if T == 0 {
      assert Steps(numSteps) == 0;
    } else {
      StopIndexFrom(st, numSteps, maxEpisodeLength, env, T, 0);
    }
  }

  lemma {:induction false} StopIndexFrom(st: TrainerState, numSteps: int, maxEpisodeLength: int,
                                         env: seq<EnvStep>, T: nat, k: nat)
    requires Steps(numSteps) <= |env|
    requires k < T <= Steps(numSteps)
    requires forall j :: 0 <= j < T - 1 ==> !DoneAt(st, maxEpisodeLength, env, j)
    requires T < Steps(numSteps) ==> DoneAt(st, maxEpisodeLength, env, T - 1)
    ensures StopIndex(st, maxEpisodeLength, env, Steps(numSteps), k) == T
    decreases T - k
  {
    if k < T - 1 {
      assert !DoneAt(st, maxEpisodeLength, env, k);
      StopIndexFrom(st, numSteps, maxEpisodeLength, env, T, k + 1);
    }
  }

  /** A rollout is determined by its inputs: two collections from the same inputs agree. */
  lemma CollectedDeterministic(st: TrainerState, numSteps: int, maxEpisodeLength: int,
                               outs: seq<StepOutput>, env: seq<EnvStep>,
                               tr1: Trajectory, st1: TrainerState,
                               tr2: Trajectory, st2: TrainerState)
    requires Steps(numSteps) <= |outs| && Steps(numSteps) <= |env|
    requires Collected(st, numSteps, maxEpisodeLength, outs, env, tr1, st1)
    requires Collected(st, numSteps, maxEpisodeLength, outs, env, tr2, st2)
    ensures tr1 == tr2 && st1 == st2
  {
    CollectedLength(st, numSteps, maxEpisodeLength, outs, env, tr1, st1);
    CollectedLength(st, numSteps, maxEpisodeLength, outs, env, tr2, st2);
    var T := tr1.Length();
    forall k | 0 <= k < T
      ensures tr1.valuesWorker[k] == tr2.valuesWorker[k] && tr1.valuesManager[k] == tr2.valuesManager[k]
      ensures tr1.logProbs[k] == tr2.logProbs[k] && tr1.rewards[k] == tr2.rewards[k]
      ensures tr1.intrinsicRewards[k] == tr2.intrinsicRewards[k] && tr1.entropies[k] == tr2.entropies[k]
      ensures tr1.managerPartialLoss[k] == tr2.managerPartialLoss[k]
    {
      assert RecordedAt(tr1, k, outs[k], env[k]) && RecordedAt(tr2, k, outs[k], env[k]);
    }
    assert tr1.valuesWorker == tr2.valuesWorker;
    assert tr1.valuesManager == tr2.valuesManager;
    assert tr1.logProbs == tr2.logProbs;
    assert tr1.rewards == tr2.rewards;
    assert tr1.intrinsicRewards == tr2.intrinsicRewards;
    assert tr1.entropies == tr2.entropies;
    assert tr1.managerPartialLoss == tr2.managerPartialLoss;
  }
}
