# AnyGPU: models and proofs

A Dafny model of the parts of AnyGPU that carry state, arithmetic or a text format, with proofs of what they keep.

- `LineWorld`, `Episodes`: the vectorised line world and its episodes, played action by action.
- `PolicyRuns`, `Evaluation`, `MetricBounds`: the episodes walkers finish under a policy, the loop that records them until
  there are four batches, and what its metrics have to do with each other.
- `Advantages`, `AdvantageProperties`, `Minibatches`: the backward advantage loop against its closed form, and the slicing of
  a shuffled batch.
- `JsonText`, `Yaml`, `YamlRoundTrip`, `Kubernetes`, `ManifestValues`: the block-style manifest printer (YAML 1.2.2, sections
  7.3.3 and 8.2), a reader for what it prints, the four documents of a generated manifest, and what they say.
- `Compatibility`, `Registry`, `RunKeys`, `Placement`, `Rounding`: the benchmark log, the index upserted beside it, the
  runs that share a key, and the placement ranking that reads the index.
- `Benchmarks`, `Routes`, `Promotions`, `ManagedCosts`, `Optimiser`: benchmark rows, route selection, promotion, the printed
  cost and its parser, and the optimiser.
- `CreditLedger`, `CreditAcceptance`: accounts and usage events of the public ledger, and which calls it accepts.
- `Capsules`, `Offers`, `Recommendations`, `ComputeStore`, `CapsuleColumns`: run capsules, their approval gate, the event tables
  they are projections of, and what each column shows.
- `HashStable`: the hash loop of plan ids.
- `Text`, `Sorting`, `Vectors`, `Arithmetic`: text, stable sorting, sums and small arithmetic shared by the others.

Code that changes things in place is modelled by classes and methods with loops (`VectorLineWorld`, `Evaluator`,
`ComputeAdvantages`, `SliceEpoch`, `State`, `Deployment`, the two `Store` classes, `HashLoop`); each is tied to functions on
values, and the properties are proved about those. A policy gives every walker an action in every iteration, so claims for all
policies are claims about every network and every sampling. The ledger and the compute tables are runs of transactions from
empty tables: `CreditLedger.Run` folds calls, `ComputeStore.Replay` folds the successful calls, which the store itself keeps
as its history.

Where code and expectation part, the model follows the code and states what then holds:

- `baseline_random_exact_success_probability` is exact only when the effective step limit is `env_size - 1`
  (`Episodes.BaselineExact`).
- Evaluation with no walkers never ends (`PolicyRuns.EvaluationEndsExactly`, `Evaluation.IterateWithoutWalkers`), and a
  negative minibatch size trains on nothing (`Minibatches.CoverageExact`).
- An unquoted scalar with a newline or a leading double quote, or an empty container, does not read back
  (`YamlRoundTrip.RoundTrip`).
- Certifying a pool fails once any benchmark is in the index, since those records name no pool (`Registry.State.VerifyPool`);
  a run on another pool replaces an earlier one exactly when source, profile, runtime, image and hardware description agree
  (`RunKeys.OtherPoolReplaces`).
- A required fallback is on another pool exactly when two candidates are admissible, and otherwise a standby on the same pool
  (`Routes.FallbackOnOtherPool`).
- The optimiser can miss a much faster route (`Optimiser.FasterAlternativeHidden`, and `Optimiser.FoundExactly` for when it
  finds one). Promoting what it found moves the first route of that name, which is the found one in every deployment selected
  from a benchmark (`Optimiser.DeploymentsPromoteWhatIsFound`) and in an arbitrary list exactly when the two are the same
  but for their roles (`Optimiser.FoundIsAnImprovement`).
- A free offer ranks as if it cost a million an hour (`Offers.FreeOfferRanksLate`).
- The audit of a published run keeps the reason `not_run` of the first audit (`Capsules.ReasonStays`).
- A refused contract leaves behind the branch that was made for it (`ComputeStore.Store.CreateContract`).

## Model

| member | source | states |
|---|---|---|
| `LineWorld.StepStaysInside` | experiments/modal_rl_smoke.py:94-108 | After every step a walker stands on 0..env_size-2, has taken at least as many steps as its position, and is below the step limit: finished walkers are back at the start. |
| `LineWorld.LeftUndoesRight` | experiments/modal_rl_smoke.py:94-97 | Away from the ends action 1 moves one to the right, any other one to the left, and each undoes the other. |
| `LineWorld.WallHolds` | experiments/modal_rl_smoke.py:97 | A step left at the wall and a step right at the goal stay where they are. |
| `LineWorld.StepPays` | experiments/modal_rl_smoke.py:94-108 | From every inside position: success exactly on a step right before the goal, done exactly then or at the step limit; 1 for success, 0.01 to the right, -0.03 to the left, -0.01 into the wall. |
| `LineWorld.VectorLineWorld.constructor` | experiments/modal_rl_smoke.py:75-78 | A new environment has every walker at position 0 with no steps taken. |
| `LineWorld.VectorLineWorld.Reset` | experiments/modal_rl_smoke.py:80-83 | Both tensors are zeroed in place. |
| `LineWorld.VectorLineWorld.Step` | experiments/modal_rl_smoke.py:94-108 | The in-place step of all walkers agrees with the one-walker transition for next state, reward and done flag; positions move to a fresh tensor, step counts stay in the old one. |
| `LineWorld.VectorLineWorld.ResetDone` | experiments/modal_rl_smoke.py:105-107 | Exactly the masked walkers are put back at the start; the others keep their state. |
| `Episodes.EpisodeReturn` | experiments/modal_rl_smoke.py:94-108 | Episode rewards telescope: 1 + 0.02*(env_size-2-start) - 0.01*(length-1) on success, 0.02*(final-start) - 0.01*length on timeout, with the exact range of lengths of each. |
| `Episodes.SuccessBeatsTimeout` | experiments/modal_rl_smoke.py:99-104 | Every successful episode pays at least 1.01 more than every timed-out one, for all sizes and step limits. |
| `Episodes.ShorterSuccessPaysMore` | experiments/modal_rl_smoke.py:99-104 | Two successful episodes differ in reward by exactly 0.01 per step of length, and none is shorter than the straight walk. |
| `Episodes.AllActionsExact` | experiments/modal_rl_smoke.py:161 | The counted set holds exactly the binary action sequences of one length. |
| `Episodes.AllActionsSize` | experiments/modal_rl_smoke.py:161 | There are 2^n action sequences of length n. |
| `Episodes.WinCountCounts` | experiments/modal_rl_smoke.py:94-108 | The step-by-step count of winning continuations is the size of the set of winning sequences. |
| `Episodes.TooFarNeverWins` | experiments/modal_rl_smoke.py:97-100 | With fewer steps left than the goal is away, no sequence wins. |
| `Episodes.JustEnoughStepsWinOnce` | experiments/modal_rl_smoke.py:97-100 | With exactly enough steps left, one sequence wins: all steps to the right. |
| `Episodes.SpareStepsWinStrictlyMore` | experiments/modal_rl_smoke.py:97-100 | With steps to spare, strictly more sequences win than those that start with the straight walk. |
| `Episodes.OnlyStraightWalkWins` | experiments/modal_rl_smoke.py:94-108 | When the limit is env_size-1, the set of winning sequences is the single straight walk. |
| `Episodes.ThreeWin` | experiments/modal_rl_smoke.py:94-108 | With one step to spare exactly three sequences win. |
| `Episodes.ThreeWinners` | experiments/modal_rl_smoke.py:94-108 | They are the straight walk followed by either action, and the straight walk after one step into the wall. |
| `Episodes.UniformSuccessCounts` | experiments/modal_rl_smoke.py:161 | The success probability of a uniform policy is the winning share of all sequences. |
| `Episodes.WinningShare` | experiments/modal_rl_smoke.py:161 | In whole numbers: the winning share is one in 2^(env_size-1) if and only if the steps just suffice. |
| `Episodes.BaselineExact` | experiments/modal_rl_smoke.py:161 | The reported baseline 0.5^(env_size-1) is the exact success probability of a uniform policy if and only if the effective step limit is env_size-1, as with the defaults 17 and 16. |
| `Evaluation.ReachedGoalIsSuccess` | experiments/modal_rl_smoke.py:138-143 | The goal flags recomputed from the positions before the step are the success flags of the step itself. |
| `PolicyRuns.PlaysOn` | experiments/modal_rl_smoke.py:94-108 | From any iteration since its last restart up to the one it is done in, a walker plays exactly the actions it is told as the rest of one episode. |
| `PolicyRuns.FinishedExactly` | experiments/modal_rl_smoke.py:135-148 | A walker is done exactly when the actions since its last restart play a whole episode; reward, length and success of that episode are its active return with the last reward, its step count with the last step and the goal flag. |
| `PolicyRuns.BatchesOnlyGrow` | experiments/modal_rl_smoke.py:142-148 | The batches of earlier iterations are a prefix of the later ones, so the first iteration with four is unique. |
| `PolicyRuns.BatchesPlayed` | experiments/modal_rl_smoke.py:135-148 | Every recorded episode is one that some actions play from the start. |
| `PolicyRuns.IterationsBounded` | experiments/modal_rl_smoke.py:135-148 | With a walker, the iterations made are at most the horizon times the batches recorded plus the steps of the first walker. |
| `PolicyRuns.EvaluationEndsExactly` | experiments/modal_rl_smoke.py:135 | For every policy four batches come together within four horizons if there is a walker, and never if there is none. |
| `Evaluation.BuffersStep` | experiments/modal_rl_smoke.py:135-148 | One iteration takes the buffers of a policy after k iterations to those after k+1: one batch of exactly the episodes finished then, and active totals of the rest. |
| `Evaluation.RunConserves` | experiments/modal_rl_smoke.py:135-148 | After every iteration of every policy, recorded plus active rewards are all rewards paid and recorded plus active lengths are walkers times iterations. |
| `Evaluation.BalancedRecord` | experiments/modal_rl_smoke.py:144-148 | Recording moves the rewards and lengths of the finished walkers out of the active tensors: recorded plus active is unchanged. |
| `Evaluation.Evaluator.Iterate` | experiments/modal_rl_smoke.py:135-148 | One iteration leaves walkers and buffers exactly as one step and one recording do, adds the rewards of this very step to what was paid and one to the iterations, and keeps recorded plus active equal to paid. |
| `Evaluation.Evaluator.Follow` | experiments/modal_rl_smoke.py:135-148 | One iteration under a policy takes its state after k iterations to that after k+1. |
| `Evaluation.Evaluator.StepEnv` | experiments/modal_rl_smoke.py:138-143 | One environment step with the rewards, done flags and recomputed goal flags it yields. |
| `Evaluation.Evaluator.Advance` | experiments/modal_rl_smoke.py:136-141 | The active tensors grow by the rewards of the step and by one step each, what was paid by the same rewards; nothing is recorded yet. |
| `Evaluation.Evaluator.RecordFinished` | experiments/modal_rl_smoke.py:142-148 | Finished walkers are recorded as one batch and their active entries cleared; earlier batches stay as they were. |
| `MetricBounds.MetricsAgree` | experiments/modal_rl_smoke.py:149-156 | For episodes that actions play, the success rate lies in 0..1 and fixes the mean return plus 0.01 times the mean length up to the reward for progress. |
| `MetricBounds.EvaluationAgrees` | experiments/modal_rl_smoke.py:127-156 | The three metrics an evaluation of any policy reports are tied in this way. |
| `Evaluation.Evaluate` | experiments/modal_rl_smoke.py:127-156 | Evaluation stops with the first iteration that makes four batches, within 4*max_episode_steps; its records list exactly the episodes the walkers finish under the policy by then, in order; recorded plus active rewards are all rewards paid, lengths likewise; the metrics are the means of the records. |
| `Evaluation.IterateWithoutWalkers` | experiments/modal_rl_smoke.py:135-148 | With no evaluation walkers any number of iterations is made and none records a batch, so the loop condition stays true. |
| `Advantages.AdvantageRecurrence` | experiments/modal_rl_smoke.py:198-203 | The closed-form sum of decayed one-step errors, cut off at done steps, satisfies the recurrence of the backward loop. |
| `Advantages.BackwardRowIsAdvantage` | experiments/modal_rl_smoke.py:199-203 | One pass of the loop body turns the row for step+1 into the closed form for the row of this step, for all walkers at once. |
| `Advantages.ComputeAdvantages` | experiments/modal_rl_smoke.py:193-204 | The backward loop writes at every step and walker the closed-form advantage, and returns adds the value estimate, for every rollout length and done pattern. |
| `AdvantageProperties.ReturnRecurrence` | experiments/modal_rl_smoke.py:199-204 | With lambda 1, return is reward plus the discounted return of the next step, and the value estimates in between cancel. |
| `AdvantageProperties.ReturnsAreTrueReturns` | experiments/modal_rl_smoke.py:196-204 | With lambda 1 every return is the true discounted reward up to the first done step, or up to the horizon plus the discounted bootstrap value. |
| `AdvantageProperties.LambdaMixes` | experiments/modal_rl_smoke.py:196-204 | For every lambda a return is the reward plus the discounted mix of next value estimate and next return, weighing 1 - lambda and lambda, unless the step ends the episode. |
| `AdvantageProperties.EpisodesIsolated` | experiments/modal_rl_smoke.py:198-203 | Rollouts that agree up to a done step have equal advantages up to it, whatever follows and however long they are. |
| `AdvantageProperties.AdvantageGeometricBound` | experiments/modal_rl_smoke.py:198-203 | Errors within D keep the advantage with n steps left within D*(1 + x + ... + x^(n-1)). |
| `AdvantageProperties.AdvantageBound` | experiments/modal_rl_smoke.py:198-203 | Errors within D and 0 <= gamma*lambda < 1 keep every advantage within D/(1 - gamma*lambda). |
| `Minibatches.ConcatenatedAt` | experiments/modal_rl_smoke.py:206-208 | Concatenated step buffers hold entry (step, env) at index step*n_envs+env. |
| `Minibatches.FlattenedBuffersLineUp` | experiments/modal_rl_smoke.py:193-211 | Concatenated buffers and reshaped tensors have one length and hold the same (step, env) at the same index. |
| `Minibatches.SliceEpoch` | experiments/modal_rl_smoke.py:217-218 | The slices of an epoch are the permutation cut in order, all of full size but the last; a zero size fails and a negative one yields no slices. |
| `Minibatches.EpochUsesEachOnce` | experiments/modal_rl_smoke.py:216-218 | Slices that join to a permutation use every sample exactly once and nothing else. |
| `Minibatches.SliceUpdate` | experiments/modal_rl_smoke.py:214-218 | Over all epochs of an update every sample is used once per epoch. |
| `Minibatches.CoverageExact` | experiments/modal_rl_smoke.py:216-218 | Every sample is used once in an epoch if and only if the minibatch size is positive or the batch is empty. |
| `JsonText.JsonRoundTrip` | anygpu/domain.py:2155-2156 | A quoted scalar is read back as the text it was made from, surrogate pairs included. |
| `JsonText.JsonOneLine` | anygpu/domain.py:2155-2156 | A quoted scalar never spans lines. |
| `JsonText.JsonAscii` | anygpu/domain.py:2155-2156 | A quoted scalar is printable ASCII, whatever the string holds. |
| `JsonText.PlainKept` | anygpu/domain.py:2155-2156 | Printable ASCII without quotes and backslashes is quoted as it is. |
| `JsonText.ShortEscapes` | anygpu/domain.py:2155-2156 | Quote, backslash and the five usual control characters have two-character escapes; all other characters that are not printable take six or twelve. |
| `YamlRoundTrip.RenderLines` | anygpu/domain.py:2122-2144 | The printed text, split at newlines, is the structural list of indented lines of the value. |
| `YamlRoundTrip.ScalarRecovered` | anygpu/domain.py:2147-2157 | The printed scalar gives its text back if and only if it was quoted, or has no newline and no leading double quote. |
| `YamlRoundTrip.BlockForward` | anygpu/domain.py:2122-2144 | A rendered readable block, followed by anything less indented, reads back as itself and stops exactly where it ends. |
| `YamlRoundTrip.BlockBackward` | anygpu/domain.py:2122-2144 | A rendered block that reads back as itself was readable: clean keys, surviving scalars, no empty container. |
| `YamlRoundTrip.JoinedDocumentLines` | anygpu/domain.py:2022 | Joining documents with separator lines gives the lines of each with a separator line between. |
| `YamlRoundTrip.RoundTrip` | anygpu/domain.py:2022-2157 | Reading a printed manifest gives its documents up to scalar text if and only if there is one and each is a readable mapping or sequence. |
| `YamlRoundTrip.NoSeparatorLine` | anygpu/domain.py:2022-2144 | No line of a readable document is a separator. |
| `Kubernetes.K8sNameIsResourceName` | anygpu/domain.py:2039-2041 | Every name becomes a non-empty name of lower-case letters, digits and dashes that neither starts nor ends with a dash. |
| `Kubernetes.K8sNameIdempotent` | anygpu/domain.py:2039-2041 | A resource name is left as it is. |
| `Kubernetes.LettersKept` | anygpu/domain.py:2039-2041 | A resource name keeps the letters and digits of the requested one in order; without any it is anygpu. |
| `Kubernetes.RunBecomesDash` | anygpu/domain.py:2040 | A run of other characters becomes one dash however long it is. |
| `Kubernetes.DeploymentNameSafe` | anygpu/domain.py:2003 | The deployment name prints as plain text and reads back, whatever the requested name. |
| `Kubernetes.PodReadable` | anygpu/domain.py:2065-2094 | The pod template reads back if and only if the model argument and the requested GPU name do. |
| `Kubernetes.DocumentsReadable` | anygpu/domain.py:2016-2119 | The four documents read back if and only if source, namespace, model argument and GPU name do. |
| `Kubernetes.GeneratedManifestReadsBack` | anygpu/domain.py:1988-2022 | A generated manifest reads back as its four documents if and only if the request is printable in that sense. |
| `Kubernetes.DocumentsFilled` | anygpu/domain.py:2044-2119 | No generated document holds an empty mapping or sequence, for any request. |
| `ManifestValues.IntPrinted` | anygpu/domain.py:2152-2153 | A printed integer denotes its number: digits that read as it, after a minus sign when it is negative. |
| `ManifestValues.ConstantsPrinted` | anygpu/domain.py:2148-2151 | Booleans print as true and false, nothing as null. |
| `ManifestValues.StringPrinted` | anygpu/domain.py:2154-2157 | A string is quoted if and only if it is empty, starts with one of the six indicators or holds a colon and a space; otherwise it prints as it is. |
| `ManifestValues.Layout` | anygpu/domain.py:2122-2144 | An entry stands on a line, what it holds two spaces further in, an item after a dash. |
| `ManifestValues.TwoDocuments` | anygpu/domain.py:2022 | Two documents have a line of three dashes between them and a newline at the end. |
| `ManifestValues.LookErased` | anygpu/domain.py:2122-2144 | What is read back stands at the path where the value stood. |
| `ManifestValues.ReplicasAndLabels` | anygpu/domain.py:2065-2119 | The deployment has the requested replicas, or one, and the service selects the label that the deployment matches and its pods carry. |
| `ManifestValues.PortsAgree` | anygpu/domain.py:2065-2119 | Service port, target port and container port are the one the runtime serves: 8000 for vLLM, 8080 otherwise. |
| `ManifestValues.VolumesAgree` | anygpu/domain.py:2053-2094 | The pod claims the volume claim by its name and its container mounts that volume. |
| `ManifestValues.NamesAgree` | anygpu/domain.py:2044-2119 | All four documents are in the requested or the default namespace; deployment and service share a name. |
| `ManifestValues.ContainerSays` | anygpu/domain.py:2025-2036 | The container runs the image of its runtime on the model argument, with the volume where that runtime looks. |
| `ManifestValues.GpuPlaced` | anygpu/domain.py:2085-2093 | The pod selects nodes by GPU if and only if the request names one; its container is then limited to one. |
| `ManifestValues.ConfigSays` | anygpu/domain.py:2044-2051 | The configuration repeats source and runtime. |
| `ManifestValues.RuntimeSelected` | anygpu/domain.py:1997-2001 | The requested runtime is used; without one a GGUF source runs on llama.cpp and any other on vLLM. |
| `ManifestValues.FileName` | anygpu/domain.py:2008 | The model file is what follows the last slash of the source, or the whole source. |
| `ManifestValues.NumbersReadBack` | anygpu/domain.py:1988-2157 | Replicas and ports of a printed manifest are read back as the numbers requested and served. |
| `Compatibility.StableIdsExist` | anygpu/domain.py:1572-1575 | Injective ids without colons exist, so the claims about ids are not empty. |
| `Compatibility.KeyTextInjective` | anygpu/domain.py:1645-1648 | The text an index id is made from determines model, runtime, hardware and profile, even when the profile contains colons. |
| `Compatibility.SameRecordId` | anygpu/domain.py:1645-1648 | Two keys have one record id if and only if they are the same key. |
| `Compatibility.RecordTells` | anygpu/domain.py:1643-1665 | A record repeats key, id, success, latency and throughput of its result and is verified if and only if the run succeeded. |
| `Compatibility.LatestExact` | anygpu/domain.py:1443-1444 | The kept results are those logged without a later result of the same key. |
| `Compatibility.NewestTakesPlace` | anygpu/domain.py:1668-1681 | Once a result is logged, no earlier one of its key is the last of that key. |
| `Compatibility.LatestDistinct` | anygpu/domain.py:1668-1681 | No key is kept twice. |
| `Compatibility.LatestSnoc` | anygpu/domain.py:1668-1681 | Logging one more result drops the kept one of its key and puts the new one last. |
| `Compatibility.UpsertMirrors` | anygpu/domain.py:1643-1682 | Upserting a record keeps the benchmark part of the index equal to the records of the kept results of the log. |
| `Compatibility.IndexExact` | anygpu/domain.py:1643-1682 | A mirroring index has pairwise distinct keys and holds exactly the records of the last result of every key. |
| `Registry.RankingExact` | anygpu/domain.py:1918-1970 | The ranking holds exactly the within-budget keys of the model whose last result succeeded, sorted by non-increasing score. |
| `Registry.EqualScoresKeepOrder` | anygpu/domain.py:1961-1970 | Candidates of equal score keep the order of the index, in which the last results were logged. |
| `Registry.RankingUnique` | anygpu/domain.py:1961-1970 | Any sorted arrangement that keeps the order of equal scores is the ranking. |
| `Registry.RankingDistinct` | anygpu/domain.py:1927-1970 | No key is ranked twice. |
| `Registry.DominatingCandidateTies` | anygpu/domain.py:1944-1970 | A candidate at least as good in every respect as the selected one has its score. |
| `Registry.LeaderComesFirst` | anygpu/domain.py:1944-1970 | Of two ranked results the one whose facts lead by more than a ten-thousandth of a point comes first, for each strategy and service level. |
| `Registry.CandidateShows` | anygpu/domain.py:1928-1967 | A result can be ranked if and only if it succeeded, is of the model and costs at most the budget; what a rank shows of it. |
| `Registry.FactsExact` | anygpu/domain.py:1936-1946 | A result is judged by its own latency and throughput, by whether its pool is available or certified, and by the cost set for it, else estimated for the pool, else 0.72. |
| `Registry.SetCostIsRead` | anygpu/domain.py:1471-1495 | A cost that was set is read in a ranking if and only if the provider of the pool is docker. |
| `Registry.IndexFindsLog` | anygpu/domain.py:1926-1946 | Walking index records and looking results up by id finds the candidates a direct scan of the kept results finds. |
| `RunKeys.ShareKeyExactly` | anygpu/domain.py:1410-1413 | Two runs share a key if and only if source, profile, runtime, image (or "local") and hardware description agree; the pool and its name count for nothing else. |
| `RunKeys.DescriptionExact` | anygpu/domain.py:1601-1605 | Two hardware descriptions are one text if and only if the memory and the joined provider, vendor and accelerator agree. |
| `RunKeys.DescriptionTells` | anygpu/domain.py:1601-1605 | Without colons in provider and vendor, equal descriptions mean equal hardware. |
| `RunKeys.ColonsMerge` | anygpu/domain.py:1601-1605 | With a colon in the vendor, different hardware can have one description. |
| `RunKeys.HardwareDescribed` | anygpu/domain.py:1560-1569 | The hardware of a run is the first GPU seen; where that is silent, vendor cpu, no memory and the text of the pool or Docker local. |
| `RunKeys.MissingImageIsLocal` | anygpu/domain.py:1621-1627 | An image that is not reported counts as local. |
| `RunKeys.LastResultStands` | anygpu/domain.py:1926-1970 | After a result is logged, a ranked candidate of its key is that result. |
| `RunKeys.OtherPoolReplaces` | anygpu/domain.py:1643-1682 | A later run takes the place of an earlier one if and only if they agree in what a key is made of, whatever pools they ran on; the ranking then shows the later one for their key. |
| `RunKeys.HardwareOnRecord` | anygpu/domain.py:1601-1618 | The hardware record a logged run leads to describes the hardware of that run. |
| `Registry.RunnableNames` | anygpu/domain.py:1379-1380 | With the two supported runtimes, runtime and image can be told apart in the text of a runtime id. |
| `Registry.State.RecordModel` | anygpu/domain.py:1578-1598 | The model record is created or only its last-seen time changes; its id resolves to the source. |
| `Registry.State.RecordHardware` | anygpu/domain.py:1601-1618 | The hardware record is created or only its last-seen time changes; its id resolves to the description. |
| `Registry.State.RecordRuntime` | anygpu/domain.py:1621-1640 | The runtime record is created or only its last-seen time changes; its id resolves to the runtime name. |
| `Registry.State.RecordCompatibility` | anygpu/domain.py:1643-1682 | Records of the same id or the same key go and the new record is last. |
| `Registry.State.LogResult` | anygpu/domain.py:1443-1444 | Logging a result keeps the index a mirror of the log and every id resolvable. |
| `Registry.State.Identify` | anygpu/domain.py:1410-1413 | The key of a run is that of its source, runtime, image, profile and hardware description, without the pool name; its three ids resolve. |
| `Registry.State.CompleteRun` | anygpu/domain.py:1386-1446 | A run that started logs one result, failed or not, under the key of its description, upserts its record and sets the pool status. |
| `Registry.State.RefusalExact` | anygpu/domain.py:1374-1391 | A run goes ahead if and only if the pool is known and of kind docker, the runtime supported, Docker there and the server started; each refusal has its own cause. |
| `Registry.State.RunBenchmark` | anygpu/domain.py:1367-1446 | A run is refused for the first failing precondition and then changes nothing; otherwise log and index grow by the result of its description, which counts as successful if and only if it was measured and carries what was measured, else zeros. |
| `Registry.State.VerifyPool` | anygpu/domain.py:1022-1195 | Certifying succeeds if and only if the pool is known or is the local one, which is made on the way, and no benchmark was ever logged; then the records of the pool are replaced by one for each runtime and its status is set, and otherwise nothing changes. |
| `Registry.LocalPoolMade` | anygpu/domain.py:1022-1059 | A missing local pool is made registered with its own hardware text; one that is there keeps all but a missing hardware text. |
| `Registry.SeenAgain` | anygpu/domain.py:1594-1640 | A record seen again keeps all it says but the time it was last seen. |
| `Registry.State.SetCost` | anygpu/domain.py:1471-1495 | A cost is set for known pools only, under provider and pool name. |
| `Registry.State.RankPlacements` | anygpu/domain.py:1918-1970 | The loop over the index returns the ranking of a direct scan of the log. |
| `Placement.ScoreMonotone` | anygpu/domain.py:2160-2177 | No higher cost or latency, no lower throughput and no worse availability never lower the rounded score, for every strategy and service level. |
| `Placement.ScoreCapped` | anygpu/domain.py:2170-2174 | Beyond 3000 ms and 200 tokens per second latency and throughput no longer change the score. |
| `Placement.ScoresDifferByLead` | anygpu/domain.py:2169-2177 | Before rounding two scores differ by 31.25 or 25 points a second, 45 or 30 a unit of cost, 20 for each 100 tokens per second, 100 for verified and 10 for available, within the caps. |
| `Placement.SecondInCost` | anygpu/domain.py:2171-2176 | A second is worth 31.25/30 of cost where speed is asked for and 25/30 elsewhere; asking for the cheapest makes cost count half as much again. |
| `Placement.LeadDecides` | anygpu/domain.py:2177 | A lead of more than a ten-thousandth survives rounding, and rounding never reverses one. |
| `Rounding.RoundToMonotone` | anygpu/domain.py:2177 | Rounding half to even at a fixed number of digits never reverses an order. |
| `Rounding.RoundToNear` | anygpu/domain.py:2177 | Rounding at a fixed number of digits moves a number by at most half a unit. |
| `Rounding.HalvesGoEven` | anygpu/domain.py:2177 | Whole numbers stay and halves go to the even neighbour. |
| `Routes.SelectRoutes` | anygpu/domain.py:1771-1810 | One to three routes in the policy order with roles fixed by position, plus a standby on the same pool when a required fallback has only one route; refused for an unknown policy or when nothing is admissible. |
| `Routes.ChosenAreBest` | anygpu/domain.py:1778-1789 | Chosen and omitted candidates are together the admissible ones; the chosen are in the policy order; no omitted one precedes a chosen one; something is omitted only when three are chosen. |
| `Routes.TiesKeepOrder` | anygpu/domain.py:1778-1789 | Candidates the policy does not tell apart keep the order of the benchmark, among the chosen and the omitted. |
| `Routes.RankingUnique` | anygpu/domain.py:1778-1789 | Any sorted arrangement of the admissible candidates that keeps the order of ties is the chosen ones followed by the omitted. |
| `Routes.LimitsHold` | anygpu/domain.py:1779-1780 | Only borderline rows and passing rows within the latency limit are chosen, and all of them while places are left. |
| `Routes.ChosenOrder` | anygpu/domain.py:1780-1785 | A policy that prefers the customer puts its pools first, a cheapest one managed routes; otherwise and among those the faster comes first. |
| `Routes.RouteShowsRow` | anygpu/domain.py:1788-1804 | Column by column, what a selected route shows of its row. |
| `Routes.StandbyShows` | anygpu/domain.py:1805-1809 | A single route that needs a fallback gets itself as one under its name with -standby; no other route is added. |
| `Routes.SelectedNamesDistinct` | anygpu/domain.py:1788-1809 | Benchmark rows of distinct names give routes of distinct names, the standby included. |
| `Routes.FallbackOnOtherPool` | anygpu/domain.py:1805-1809 | With distinct pools, a required fallback is on another pool than the primary if and only if at least two candidates are admissible. |
| `Benchmarks.BenchmarkModel` | anygpu/domain.py:1314-1364 | The loop over the pools yields one row for each, passing rows first and by latency among each; without pools there is none. |
| `Benchmarks.RowExact` | anygpu/domain.py:1332-1346 | 980 ms, 700 with an MI300X, 560 with an H100, 250 more when serverless; which rows pass and which are bad follows; customer cost for customer pools only. |
| `Benchmarks.RateNear` | anygpu/domain.py:1345 | The rate of a row is seven times memory and capacity, at least one, to one decimal. |
| `Benchmarks.LocalRowExact` | anygpu/domain.py:1689-1745 | The local row is the measurement, or 1200 ms for a GGUF model and 1500 for another. |
| `Benchmarks.BenchmarkOrder` | anygpu/domain.py:1359 | Passing rows come first, and faster ones first among each. |
| `Benchmarks.BenchmarkDistinct` | anygpu/domain.py:1328-1357 | The rows of a benchmark have distinct names and distinct pools. |
| `Promotions.Deployment.Promote` | anygpu/cli.py:579-592 | The first route of the name moves to the front and roles become positional; an unknown name changes nothing. |
| `Promotions.Deployment.RewriteRoles` | anygpu/cli.py:587-589 | Roles become primary, fallback, then overflow. |
| `Promotions.Deployment.FallbackTest` | anygpu/cli.py:665-674 | With at least two routes the first is degraded and the second healthy; otherwise nothing changes. |
| `Promotions.TestShows` | anygpu/cli.py:665-674 | A fallback test changes the status of the first two routes and nothing else. |
| `Promotions.PromotionsKeepRoutes` | anygpu/cli.py:584-590 | Any sequence of promotions keeps the multiset of routes, roles aside, and positional roles. |
| `Promotions.PromotedMoves` | anygpu/cli.py:584-590 | Roles aside, a promotion moves the first route of the name to the front and keeps all others in order, repeated names included. |
| `Promotions.OrderAfterPromotions` | anygpu/cli.py:584-590 | After any promotions the first route of each promoted name comes first, most recently promoted first, and all other routes keep their order, repeated names included. |
| `Promotions.CommandsKeepNames` | anygpu/cli.py:579-592 | Promotions, fallback tests and status changes keep route names distinct and lose no route. |
| `ManagedCosts.FindPrintedDiscount` | anygpu/domain.py:2620-2621 | The percentage found in a printed delta is the one printed. |
| `ManagedCosts.FirstDiscountCounts` | anygpu/domain.py:2620 | The first percentage after a minus sign counts, whatever stands around it. |
| `ManagedCosts.PrintedCostRecovered` | anygpu/domain.py:2615-2622 | The parsed cost of a managed route is the cost of the percentage the benchmark printed. |
| `ManagedCosts.PrintedCostNear` | anygpu/domain.py:2615-2622 | The parsed cost is within half a thousandth of the printed discount on 0.72. |
| `ManagedCosts.ManagedCostMonotone` | anygpu/domain.py:2615-2622 | A higher hourly cost never makes a managed route look cheaper. |
| `ManagedCosts.ManagedCostRange` | anygpu/domain.py:2615-2622 | A managed route never costs more than 0.662, and at least 0.346 if and only if the hourly cost is above -0.1, so for every non-negative one. |
| `ManagedCosts.OtherCosts` | anygpu/domain.py:2615-2622 | A local route is free, one at customer cost is 0.05, and any other without a percentage counts as 20 percent off 0.72. |
| `ManagedCosts.AdvertisedDiscount` | anygpu/domain.py:1336 | The advertised percentage is the whole part of 52 less ten times the hourly cost, and at least 8. |
| `Optimiser.BestIsFirst` | anygpu/domain.py:2671 | The alternative considered is the first of least cost and, among those, least latency. |
| `Optimiser.FoundIsAnImprovement` | anygpu/domain.py:2663-2680 | A found route is a healthy alternative that is cheaper or more than 40 ms faster; promoting its name puts that very route first if and only if the first route of the name is the same but for its role. |
| `Optimiser.PromotedFront` | anygpu/cli.py:579-592 | The same for any route of any deployment. |
| `Optimiser.DeploymentsPromoteWhatIsFound` | anygpu/domain.py:2663-2680 | In every deployment selected from a benchmark, after any promotions, fallback tests and status changes, promoting what is found puts that very route first. |
| `Optimiser.RepeatedNameMovesAnother` | anygpu/cli.py:579-592 | In a list with a repeated name, which no selection makes, the promotion can put another, degraded route first. |
| `Optimiser.CheaperIsFound` | anygpu/domain.py:2671-2672 | Not found only if no healthy alternative is strictly cheaper. |
| `Optimiser.FoundExactly` | anygpu/domain.py:2663-2680 | Found if and only if some healthy alternative is strictly cheaper, or the best one is more than 40 ms faster. |
| `Optimiser.LocalIsFound` | anygpu/domain.py:2663-2680 | A healthy local route is found whenever the current route costs anything. |
| `Optimiser.ImprovementExact` | anygpu/domain.py:2677 | The improvement is what the found route is faster by, and nothing when it is cheaper but slower. |
| `Optimiser.MarginExact` | anygpu/domain.py:2672 | Among routes of one cost one is found if and only if a healthy alternative is more than 40 ms faster. |
| `Optimiser.FasterAlternativeHidden` | anygpu/domain.py:2671-2680 | In the deployment of two equally slow customer pools and a much faster managed one, under a policy that prefers the customer, the fast route stays unfound. |
| `CreditLedger.SurroundingSpaceIgnored` | anygpu/crucible_store.py:541-547 | Whitespace around a caller id never reaches the account id. |
| `CreditLedger.StripExact` | anygpu/crucible_store.py:541-547 | Normalising drops surrounding whitespace, all of it and nothing else. |
| `CreditLedger.Store.EnsureAccount` | anygpu/crucible_store.py:387-413 | Claiming opens an account at its limit or changes at most the label of an existing one. |
| `CreditLedger.Store.ConsumeCredit` | anygpu/crucible_store.py:421-484 | One transaction: the balance falls and one event is written, or every table is as before, an account opened on the way included. |
| `CreditLedger.Store.ListUsage` | anygpu/crucible_store.py:486-497 | The events of one caller, newest first, ties by larger id. |
| `CreditLedger.StepConsistent` | anygpu/crucible_store.py:387-484 | Every call keeps balance plus recorded runs equal to the limit with 0 <= balance <= limit, for every account, and rows positive, distinct and owned; a rejected call changes nothing. |
| `CreditLedger.ConsumeAddsOneRow` | anygpu/crucible_store.py:454-473 | An accepted consumption writes exactly one new event under an unused id. |
| `CreditLedger.OneAccountPerCaller` | anygpu/crucible_store.py:541-547 | Calls whose ids differ in surrounding whitespace have the same effect and reply on every ledger. |
| `CreditLedger.RunConsistent` | anygpu/crucible_store.py:387-484 | The balance invariant holds after every run of claims and consumptions. |
| `CreditLedger.RejectedLeaveNoTrace` | anygpu/crucible_store.py:421-484 | Dropping the rejected calls of a run gives the same ledger, and accepts the same calls. |
| `CreditLedger.CallersAreIsolated` | anygpu/crucible_store.py:387-484 | What a caller sees after a run is the ledger of that caller's own accepted calls. |
| `CreditLedger.Balance` | anygpu/crucible_store.py:387-484 | An account exists if and only if its caller had an accepted call; its limit is that of the first one and its balance that limit less all accepted consumption, so claiming again never refills. |
| `CreditLedger.ListingExplainsBalance` | anygpu/crucible_store.py:486-497 | The listing is sorted, complete, and its run counts add up to limit minus balance. |
| `CreditAcceptance.ConsumptionAcceptedExactly` | anygpu/crucible_store.py:421-484 | After any calls a sound consumption is accepted if and only if its event id is new and its runs are at most the limit of the first accepted call of the caller, or its own, less all the caller took; which problem is reported otherwise. |
| `CreditAcceptance.ClaimAcceptedExactly` | anygpu/crucible_store.py:387-413 | A claim is accepted if and only if its arguments are sound. |
| `CreditAcceptance.UnsoundRefused` | anygpu/crucible_store.py:541-554 | Each way arguments can be unsound has its problem: a blank caller, one of more than 128 characters, a count that is not positive, a blank tool. |
| `CreditAcceptance.WholeLimitUsable` | anygpu/crucible_store.py:452-454 | All the credit left can be taken in one consumption, down to zero. |
| `CreditAcceptance.RowIdsExactly` | anygpu/crucible_store.py:464-473 | An id is on a usage row if and only if an accepted consumption brought it. |
| `CreditAcceptance.ConsumptionWrites` | anygpu/crucible_store.py:454-484 | Column by column, what an accepted consumption writes; no other account changes. |
| `CreditAcceptance.ClaimWrites` | anygpu/crucible_store.py:397-413 | Column by column, what an accepted claim writes: a full new account, or at most the label of an old one. |
| `CreditAcceptance.NewestFirst` | anygpu/crucible_store.py:486-497 | A listing runs from newest to oldest and within one time from larger to smaller id. |
| `Capsules.OthersUntouched` | anygpu/insforge_compute.py:549-571 | An event leaves the capsules of other runs alone. |
| `Capsules.TrainingProjects` | anygpu/insforge_compute.py:363-373 | Writing the reported fields over the old metrics leaves exactly those of the latest training event, nulls included. |
| `Capsules.PublicationProjects` | anygpu/insforge_compute.py:481-493 | Writing the audited fields over the old audit leaves the latest artifact and the first reason, and moves the model address only for model kinds. |
| `Capsules.LaunchProjects` | anygpu/insforge_compute.py:294-309 | A launch makes the capsule running with the provider and token of its approval and one more log line. |
| `Capsules.RequestProjects` | anygpu/insforge_compute.py:169-190 | A new capsule has no provider, token, metrics or artifact and one log line. |
| `Capsules.ApprovalsAuthorised` | anygpu/insforge_compute.py:231-255 | Every approval row stays signed by an admin with positive budget and runtime and a provider, because users are only inserted. |
| `Capsules.TokensDistinct` | anygpu/insforge_compute.py:252-260 | A token belongs to one approval row. |
| `Capsules.Gate` | anygpu/insforge_compute.py:222-310 | A capsule that is running, or shows a token or a provider, shows those of a signed row for that run, given by an admin with positive budget and runtime. |
| `Capsules.ApprovalComesFirst` | anygpu/insforge_compute.py:287-310 | Before every launch in a history lies the admin's approval of that run, authorised when it was signed. |
| `Capsules.WaitingExactly` | anygpu/insforge_compute.py:168-185 | A capsule waits for approval if and only if it was never launched and has no artifact. |
| `Capsules.VerdictAgrees` | anygpu/insforge_compute.py:481-493 | A passed or failed status repeats the verdict in the audit. |
| `Capsules.LogLength` | anygpu/insforge_compute.py:178-185 | A log has one line for the request, one for each launch and one for each training event. |
| `Capsules.LogOpens` | anygpu/insforge_compute.py:178-185 | The log of a requested run opens with the line of the request. |
| `Capsules.LogsRead` | anygpu/insforge_compute.py:372 | No line of a log is empty, whatever message a training event brings. |
| `Capsules.LogsOnlyGrow` | anygpu/insforge_compute.py:296-303 | A log at an earlier time is a prefix of the log later. |
| `Capsules.MetricsShowLastRow` | anygpu/insforge_compute.py:313-374 | The event the metrics show is the last row for that run in the table of training events. |
| `Capsules.AuditShowsLastRow` | anygpu/insforge_compute.py:432-494 | The artifact the audit shows is the last row for that run in the table of artifacts. |
| `Capsules.ArtifactRuns` | anygpu/insforge_compute.py:442-443 | Every artifact belongs to a requested run. |
| `Capsules.ReasonStays` | anygpu/insforge_compute.py:481-493 | Every audit keeps the reason not_run it began with, whatever artifacts are published. |
| `Capsules.BranchesStay` | anygpu/insforge_compute.py:19-82 | A branch, once there, stays under its name with the time of its first creation. |
| `Capsules.MergedExactly` | anygpu/insforge_compute.py:19-82 | A branch is merged if and only if it has a note and a time of merging; creating it again clears all three. |
| `Capsules.ContractBranchesKnown` | anygpu/insforge_compute.py:85-134 | Every contract is on a known branch. |
| `Capsules.RunBranchesKnown` | anygpu/insforge_compute.py:145-205 | So is every run. |
| `CapsuleColumns.StoreColumns` | anygpu/insforge_compute.py:363-493 | In every store the six metrics of a run are the columns of its last training row, its audit those of its last artifact row, and its model address that of the last artifact of one of the three model kinds; nulls included. |
| `CapsuleColumns.MetricsColumns` | anygpu/insforge_compute.py:363-371 | Field by field, the metrics a history determines. |
| `CapsuleColumns.AuditColumns` | anygpu/insforge_compute.py:481-489 | Field by field, the audit a history determines. |
| `CapsuleColumns.ModelColumn` | anygpu/insforge_compute.py:490-492 | The model address is that of the last artifact that holds a model. |
| `CapsuleColumns.RowsDistinct` | anygpu/crucible_store.py:28-110 | User ids and emails, contract ids, approval ids and tokens, training and artifact ids stay distinct. |
| `CapsuleColumns.PaidOnlyWhenSigned` | anygpu/insforge_compute.py:222-310 | Behind every running capsule stands a stored row for that run, signed for a positive budget, a positive runtime and a named provider by a stored user who is an admin. |
| `CapsuleColumns.LinesSay` | anygpu/insforge_compute.py:178-372 | The text of each log line. |
| `Offers.OffersRanked` | anygpu/insforge_compute.py:160-167 | Ranking keeps the offers, lists available ones before unavailable ones, orders each part by price and equal prices by provider, and keeps the order of what is still tied. |
| `Offers.StatedPriceCounts` | anygpu/insforge_compute.py:164 | An offer ranks at a price it states if and only if one of its two price fields is not zero; otherwise at a million. |
| `Offers.PriceExact` | anygpu/insforge_compute.py:164 | The price per hour comes first and the one in dollars second; zeros are passed over. |
| `Offers.UnavailableExactly` | anygpu/insforge_compute.py:163 | An offer is unavailable if and only if it says false or null. |
| `Offers.FreeOfferRanksLate` | anygpu/insforge_compute.py:164 | An offer whose stated prices are all zero ranks behind another if and only if that costs less than a million, or just a million under an earlier provider name. |
| `Capsules.VersionOpenExactly` | anygpu/insforge_compute.py:98 | The versions a contract can get are all but zero, and zero only when it is the next one. |
| `Capsules.VersionsCount` | anygpu/insforge_compute.py:590-596 | When no caller gives a version, the contracts of a name on a branch are numbered from one without gaps. |
| `CapsuleColumns.VersionExact` | anygpu/insforge_compute.py:98 | A version given and not zero is stored; otherwise one more than the largest of the name on the branch, or one. |
| `CapsuleColumns.BranchColumns` | anygpu/insforge_compute.py:19-82 | Column by column, what creating, ensuring and merging a branch leave in its row. |
| `CapsuleColumns.OtherBranchesStay` | anygpu/insforge_compute.py:19-82 | The rows of other branches stay. |
| `ComputeStore.RequestProblem` | anygpu/insforge_compute.py:155-173 | A request succeeds if and only if user and contract are known, the prompt is given and the id is new; the first obstacle is reported. |
| `ComputeStore.ApprovalProblem` | anygpu/insforge_compute.py:232-255 | An approval succeeds if and only if an admin gives positive budget and runtime and a provider for a known run. |
| `ComputeStore.LaunchNeedsApproval` | anygpu/insforge_compute.py:287-291 | A launch succeeds if and only if the run is known and the token is that of some approval row of that run. |
| `ComputeStore.RowRewritten` | anygpu/insforge_compute.py:549-571 | An update rewrites the row of its run and no other. |
| `ComputeStore.ApplyProjects` | anygpu/insforge_compute.py:145-494 | Every successful call takes the projections of a history to the projections of the extended history. |
| `ComputeStore.AcceptedExactly` | anygpu/insforge_compute.py:145-494 | On the tables of a history exactly the events that may follow it are accepted. |
| `ComputeStore.StateIsProjection` | anygpu/insforge_compute.py:145-494 | After any calls the successes form a legal history, every legal history arises, and all tables and capsule columns are its projections. |
| `ComputeStore.Store.HoldsProjections` | anygpu/insforge_compute.py:145-494 | Whatever methods were called on a new store, its tables are the projections of a legal history. |
| `ComputeStore.Store.BranchesKnown` | anygpu/insforge_compute.py:85-205 | In every store, contracts and runs are on branches it knows. |
| `ComputeStore.Store.ReasonsStay` | anygpu/insforge_compute.py:481-493 | In every store, the audit of a run keeps its first reason. |
| `ComputeStore.Store.CreateBranch` | anygpu/insforge_compute.py:19-60 | A named branch becomes active without note, under the time of its first creation. |
| `ComputeStore.Store.MergeBranch` | anygpu/insforge_compute.py:71-82 | A known branch becomes merged with note and time; an unknown one is refused. |
| `ComputeStore.Store.EnsureBranch` | anygpu/insforge_compute.py:574-587 | An unknown branch is made without parent; a known one is left alone. |
| `ComputeStore.Store.RunsOnlyWhenApproved` | anygpu/insforge_compute.py:222-310 | In every store, a running capsule shows the provider and token of a stored row for that run, signed by an admin with positive budget and runtime. |
| `ComputeStore.Store.CreateUser` | anygpu/crucible_store.py:206-215 | A user row is inserted unless id or email is taken. |
| `ComputeStore.Store.CreateContract` | anygpu/insforge_compute.py:85-134 | An unknown branch is made first and stays even when the contract is refused; a contract row is inserted under a new id when it has a name, with its five specifications and the given version or, when that is missing or zero, one above the largest of its name on its branch. |
| `ComputeStore.Store.RequestRun` | anygpu/insforge_compute.py:145-205 | Refused calls change nothing; a capsule is inserted with its offers ranked and the branch of its contract. |
| `ComputeStore.Store.ApproveRun` | anygpu/insforge_compute.py:222-278 | Refused calls change nothing; otherwise one signed row is inserted and no capsule changes. |
| `ComputeStore.Store.LaunchRun` | anygpu/insforge_compute.py:287-310 | Refused calls change nothing; otherwise the capsule row shows the approval found by its token. |
| `ComputeStore.Store.RecordTraining` | anygpu/insforge_compute.py:313-374 | Refused calls change nothing; otherwise the event row and the capsule row are written. |
| `ComputeStore.Store.PublishArtifact` | anygpu/insforge_compute.py:432-494 | Refused calls change nothing; otherwise the artifact row and the capsule row are written. |
| `Recommendations.JoinedExactly` | anygpu/insforge_compute.py:503-528 | The evidence rows are exactly the passing artifacts in scope with the capsules of their runs. |
| `Recommendations.PrefixIsBest` | anygpu/insforge_compute.py:525-526 | The five rows kept of the sorted join are sorted, and none left out precedes one of them. |
| `Recommendations.HeadIsBest` | anygpu/insforge_compute.py:525-538 | The row a recommendation is read from is at least as good as every row in scope: least cost, then largest gain, then newest. |
| `Recommendations.InScopeExactly` | anygpu/insforge_compute.py:503-524 | An artifact is listed if and only if it passed and its run is in scope, where an empty scope means all. |
| `Recommendations.HeadBeats` | anygpu/insforge_compute.py:525-538 | Nothing in scope costs less than the head, where no cost counts as 999999; nothing as cheap gained more; nothing tied is newer; at most five rows are listed. |
| `ComputeStore.Store.Recommend` | anygpu/insforge_compute.py:497-546 | The recommendation names provider, GPU and contract of the best of at most five listed rows, and nothing when no artifact passed. |
| `ComputeStore.RecommendedWasApproved` | anygpu/insforge_compute.py:497-546 | Any provider a recommendation names was approved by an admin for the run it was learnt from. |
| `HashStable.ShiftAndAdd` | apps/web/src/lib/crucible-server.ts:160 | Shifting on int32 and adding without truncation agrees with multiplication by 33 modulo 2^32. |
| `HashStable.XorInverse` | apps/web/src/lib/crucible-server.ts:160 | Exclusive or undoes itself. |
| `HashStable.HashLoop` | apps/web/src/lib/crucible-server.ts:157-163 | Every loop state is the int32 that stands for the wrapping multiply-by-33, exclusive-or hash of what was read. |
| `HashStable.Base36RoundTrip` | apps/web/src/lib/crucible-server.ts:162 | The base-36 text of a number determines it. |
| `HashStable.SliceIsLossless` | apps/web/src/lib/crucible-server.ts:28 | The absolute hash is at most 2^31, its text has at most six characters, and the twelve-character slice cuts nothing off. |
| `HashStable.PlanIdsCollideExactly` | apps/web/src/lib/crucible-server.ts:28 | Two inputs share a plan id if and only if their hashes are equal or opposite. |
| `HashStable.LastCharacterMatters` | apps/web/src/lib/crucible-server.ts:157-163 | Inputs that differ at most in the last character hash alike if and only if those characters share their first code unit. |
| `HashStable.HashStarts` | apps/web/src/lib/crucible-server.ts:158-160 | The hash of nothing is 5381, and that of one character 177573 mixed with its code unit. |
| `HashStable.HashGoesOn` | apps/web/src/lib/crucible-server.ts:160 | Mixing the last code unit in again gives 33 times the hash before, modulo 2^32. |
| `HashStable.XorBits` | apps/web/src/lib/crucible-server.ts:160 | Exclusive or is 1 exactly where the bits differ. |
| `HashStable.HighSurrogate` | apps/web/src/lib/crucible-server.ts:160 | A code point beyond the first plane is read as its high surrogate. |
| `HashStable.PrintedDigits` | apps/web/src/lib/crucible-server.ts:162 | The hash prints in digits and lower-case letters. |

## Left out

- Floating-point and float32 rounding: rewards, values, advantages, scores and costs are exact reals; the roundings to 3 and 4
  digits that the code asks for are modelled.
- Evaluation.Evaluate: assumes at least one walker, since the loop does not end otherwise; observations, which divide by
  env_size - 1, are part of the policy.
- AdvantageProperties.ReturnsAreTrueReturns: takes done flags to be 0 or 1, as `done.float()` makes them.
- Registry.State.CompleteRun: takes ids made by `_stable_id` to be injective and free of colons, and benchmark ids to be fresh;
  the SHA-256 prefix behind them is not modelled.
- Registry.State.VerifyPool: runtimes and status of the certification are parameters; the checks it lists and the hardware
  columns are not modelled, and a failed call is not saved.
- Registry.State.RankPlacements: takes the budget as a number; parsing its text and the printed reasons are not modelled.
- Kubernetes.GeneratedManifestReadsBack: lower-casing is an arbitrary function, `int(replicas)` is a number, and storing the
  manifest in the state is not modelled.
- YamlRoundTrip.RoundTrip: is about scalar text; `true` and the text "true" print alike, floats are not modelled, and no claim is
  made about strings that full YAML reads differently, such as ones containing ` #`.
- ManagedCosts.FindPrintedDiscount: digits are ASCII digits.
- Benchmarks.BenchmarkModel: what a local server measures is a parameter, and its failure is not modelled; of the columns of a
  row those are kept that routes are selected from.
- ComputeStore.Store.CreateContract: the five specifications and branch snapshots are the JSON text that is stored.
- ComputeStore.Store.RequestRun: the row a call returns is read back from the tables; JSON columns it only stores are text, and
  prices are numbers.
- Recommendations.PrefixIsBest: rows that tie in all three keys may come in any order in SQL; only facts that hold for every such
  order are claimed.
- SQLite: each connection block is an atomic transaction, and calls run one after another; concurrent writers of the database or
  of `state.json` are not modelled.
- Clocks, random ids and tokens, Docker, measurements and inventories are parameters.
- Neural networks, Adam, the policy loss, normalisation of advantages and sampling: actions and permutations are arbitrary.
- Providers, runtimes, the gateway, MCP servers, web pages, authentication and the plan/approve/deploy flow of
  `anygpu/crucible.py`: plumbing, or a simpler copy of the capsule gate.
- Repeated optimising and promoting: two routes can alternate, so only single calls are claimed.
