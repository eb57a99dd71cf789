# FeUdal-network training iteration, modelled in Dafny

This project models the core of `train()` in `train.py`. That function trains a hierarchical
manager/worker reinforcement-learning agent. One iteration of its outer loop has three parts:

1. **Rollout collection** (`rollout.dfy`, module `Rollout`). The loop runs up to `num_steps` steps and
   counts `episode_length`. A step is done when the environment says so or when the counter reaches
   `max_episode_length`. A done step resets the counter. Each reward is clipped to [-1, 1]. The
   loop appends one record per step to seven parallel lists and stops right after the first done step.
   The state carried between iterations is `TrainerState(episodeLength, done)`. Its invariant `Valid`
   says that `done` holds exactly when the counter is 0, and that a running episode is shorter than
   the cap. Whether the iteration starts from a fresh recurrent state or from the carried one is the
   `StateInit` label in `train.dfy`, and it is `Fresh` exactly when a new episode starts.
2. **Return and advantage estimation** (`returns.dfy`, module `Returns`). The bootstrap values are
   appended as element `T` of both value lists. A backward loop over `i = T-1 … 0` then accumulates:
   - the worker return (reward plus `alpha` times the intrinsic reward) and the manager return;
   - the two squared-advantage value losses;
   - the GAE accumulator, built from one-step TD residuals;
   - the policy loss, with the entropy regulariser;
   - the manager loss, which reads `manager_partial_loss[i + c]` only when `i + c < T`.

   The specification is in closed form. `Return` is the bootstrapped discounted sum
   Σ_{k=i}^{T-1} γ^{k-i}·x_k + γ^{T-i}·R_boot. `WorkerGae` is Σ_{k=i}^{T-1} (γ_w·τ)^{k-i}·δ_k.
   The loop of `EstimateLosses` is proved to compute exactly these sums.
3. **Loss assembly** (`train.dfy`, module `Train`). The total loss is
   `policy + manager + coef_m·value_manager + coef_w·value_worker`, with both coefficients
   defaulting to 0.5 as in the signature of `train()`. `TrainIteration` composes the
   three parts for one iteration, with the carried state threaded in and out.

The network, the sampler and the environment are inputs. For each step, `StepOutput` holds the
value estimates, the action distribution, the sampled action's log-probability, the manager
partial-loss term and the intrinsic reward. `EnvStep` holds the raw reward and the environment's
done flag. `estimate` is the value pair from the extra forward pass on the last observation.
Tensors of shape 1×1 are scalars, and every number is an exact `real`.

Three behaviours of `train()` that are easy to misread:

- **Empty rollouts.** A zero-length rollout happens only when `num_steps <= 0`. The first step
  always runs, and its record is appended even when it is done. So the environment starting done
  does not give an empty rollout.
- **The entropy regulariser.** It is `-(log_prob * action_probs).sum()`, taken literally. For a
  proper distribution this equals `-log_prob` of the sampled action (`EntropyOfDistribution`). It is
  not the entropy of the distribution.
- **The backward call on an empty rollout.** The four accumulators start as the Python number `0`
  (train.py:105-108). With no recorded step they stay plain numbers, so `total_loss` has no
  gradient graph and `total_loss.backward()` (train.py:140) fails. `TrainIteration` returns the
  outcome `BackwardFails` in exactly that case, which is exactly `num_steps <= 0`.

## Model

| member | source | states |
|---|---|---|
| `Rollout.Clip` | train.py:71 | the clipped reward lies in [-1, 1]; it equals the raw reward when that is already in range, and saturates at 1 or -1 otherwise |
| `Rollout.EntropyOfDistribution` | train.py:65 | when the action probabilities sum to 1, the regulariser `-(log_prob * action_probs).sum()` equals `-log_prob` |
| `Rollout.StartIsValid` | train.py:38-43 | the initial carried state (`done = True`, counter 0) satisfies the counter invariant |
| `Rollout.Collect` | train.py:59-94 | every list has one entry per recorded step, holding that step's network output, clipped reward and regulariser; `T <= max(num_steps, 0)`, and `1 <= T` when `num_steps >= 1`; no step before the last is done; the rollout stops early only on a done step; `done` is the env flag or the counter reaching the cap; the counter is 0 after a done step and grows by `T` otherwise; the invariant `done <==> counter == 0`, counter below the cap, is preserved |
| `Rollout.StopIndex` | train.py:59-94 | reference definition of the rollout length: one past the first done step, capped at `num_steps` |
| `Rollout.CollectedLength` | train.py:59-94 | the length of every collected trajectory equals the reference `StopIndex` |
| `Rollout.CollectedDeterministic` | train.py:59-94 | two rollouts from the same state and inputs yield the same lists and the same carried state |
| `Returns.DiscountedSumHead` | train.py:111-112 | the closed-form discounted sum satisfies the backward recurrence `S_i = x_i + γ·S_{i+1}` |
| `Returns.ReturnStep` | train.py:111-112 | the closed-form bootstrapped return satisfies `R_i = x_i + γ·R_{i+1}`, the update the loop performs |
| `Returns.ReturnExample` | train.py:111-112 | rewards [1, 0, 1], γ = 0.9 and a zero bootstrap give returns 1.81, 0.9 and 1 at i = 0, 1, 2 |
| `Returns.WorkerReturnWithoutIntrinsic` | train.py:111 | with `alpha = 0` the worker return is the plain bootstrapped return of the clipped rewards |
| `Returns.ValueLoss` | train.py:113-116 | each value loss, the sum of `0.5·advantage²` over the remaining steps, is non-negative |
| `Returns.BackwardStep` | train.py:110-124 | one loop iteration maps the closed-form returns and GAE at `i+1` to those at `i` |
| `Returns.EstimateLosses` | train.py:103-131 | the backward loop, with the bootstrap appended at index `T`, returns exactly the closed-form losses: value losses from the bootstrapped returns, the policy loss weighted by `gae_i = Σ (γ_w·τ)^{k-i}·δ_k`, and the horizon-offset manager loss; both value losses are non-negative, and all four are 0 when `T = 0` |
| `Returns.WorkerGaeStep` | train.py:119-124 | the closed-form GAE satisfies `gae_i = δ_i + γ_w·τ·gae_{i+1}`, with `δ_i = r_i + α·ir_i + γ_w·V_w[i+1] − V_w[i]` |
| `Returns.GaeWithoutSmoothing` | train.py:119-124 | with `tau_worker = 0` the GAE at every step is the one-step TD residual |
| `Returns.GaeTelescopes` | train.py:111-124 | with `tau_worker = 1` the GAE at step `i` is the worker return minus the worker value estimate |
| `Returns.ManagerLossWindow` | train.py:129-131 | the manager loss has a term for step `i` exactly when `i + c < T`; it equals the unguarded sum over `[0, T-c)` and is 0 when `T <= c` |
| `Returns.ManagerLossVanishes` | train.py:129-131 | a rollout no longer than the horizon contributes nothing to the manager loss |
| `Returns.ManagerLossTwoTerms` | train.py:129-131 | when `T = c + 2` (for example `c = 3`, `T = 5`), only steps 0 and 1 contribute, reading entries `c` and `c+1` |
| `Returns.EmptyRolloutLosses` | train.py:105-110 | with `T = 0` all four loss accumulators stay 0 |
| `Train.TerminalReturn` | train.py:96-112 | the bootstrap choice seen through the returns: after a done step the last worker return is the last reward plus `alpha` times the last intrinsic reward, and the last manager return is the last reward, with nothing bootstrapped; otherwise the returns at index `T` are the final-observation estimates, and the last manager return is the last reward plus `gamma_manager` times that estimate |
| `Train.TotalLossBounds` | train.py:135-138 | with non-negative coefficients the total loss is at least policy plus manager loss; the combination is 0 for an empty rollout (which the source then fails to back-propagate) |
| `Train.TrainIteration` | train.py:44-140 | the recurrent state is fresh exactly when the previous iteration ended done, which is exactly when the counter is 0; the rollout satisfies `Collected`, the carried-state invariant is preserved, the losses are the closed-form losses with the bootstrap chosen from the final `done`, and `total_loss` is their fixed linear combination; the backward call fails exactly when the rollout is empty, which is exactly when `num_steps <= 0` |
| `Train.RunTwice` | train.py:44-140 | two runs of one iteration on the same inputs end the same way, with the same total loss, and leave the same carried state |

## Left out

- PyTorch autograd is not modelled. This covers `Variable`, `.data` detaching, `zero_grad` and
  `backward()`. Gradients have no counterpart over `real`. So the model does not record that the TD
  residual and the bootstrap use detached values while the return targets do not.
- The optimiser step (`optim.Adam`, `optimizer.step`) and `clip_grad_norm_` are opaque library
  calls. So `lr` and `max_grad_norm` do not appear.
- The `Categorical` sampler is not modelled. The sampled action's log-probability and the action
  distribution are inputs per step.
- The model's forward pass, `init_state`, `reset_states_grad` and `_intrinsic_reward` are the
  network itself. Their outputs are inputs. The recurrent state appears only as the `Fresh`/`Carried`
  label.
- Environment I/O (`env.reset`, `env.step`, `torch.from_numpy`, the observation) is an input
  sequence of (reward, done) pairs. The observation that is carried is not modelled.
- Printing and plotting (`Plotter`, `print`) are observability only.
- `ensure_shared_grads` is dead multi-process scaffolding. Its call site is commented out.
- The endless `for epoch in count()` loop is modelled as one iteration (`TrainIteration`), with the
  carried state threaded in and out.
- IEEE float rounding, NaN and infinity are not modelled. Numbers are exact reals.
- The manager horizon `c` is a natural number. A negative `c` would make Python index from the end
  of the list.
- `nabla_dcos` is treated as a scalar per step, like the other 1×1 tensors.
