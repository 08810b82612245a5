# MDTF data request stages, modelled in Dafny

This project models the data request of the MDTF diagnostics pipeline as a
Dagster job (`mdtf_dagster_demo_1.py`). A case owns pods, a pod owns
variables, and a variable owns data keys. Four stages run one after another.
Query and fetch fan out over variables, preprocess fans out over
(pod, variable) pairs, and teardown then runs once over every pod and
variable of the case:

- **query**: one query per variable, with ranked fallback alternates;
- **fetch**: a loop over the variable's data keys;
- **preprocess**: the pod's preprocessor runs on each pair;
- **teardown**: variables still active are marked as having succeeded.

Every stage changes entities in place. Pods, variables and data keys are
therefore classes (`Objects`), and each stage is a method with a `modifies`
clause. The selectors only build the batches each fan-out consumes, so they
are pure functions (`Selectors`).

The data source is an external collaborator. Its calls are parameters of the
methods that use them:

- `query` says what `query_dataset` does for a variable: it either finds keys
  or raises.
- `necessary` models `is_fetch_necessary`.
- `fetch` says what `fetch_dataset` does for a (variable, key) pair.
- `process` says what the pod's `preprocessor.process` does: it completes or
  raises.

Each of these is a deterministic function of the objects it is given.

The stage methods are specified against snapshot functions:

- `Query.StateOf` and `Objects.KeyStateOf` give the current state of one object;
- `Query.Settle`, `Fetch.AfterLoop`, `Fetch.Checked`, `Preprocess.Discarded`
  and `Teardown.Settled` say what each state becomes.

The lemmas state the stage's promises about those functions.

Modules:

- `objects.dfy`: statuses, stages, errors with their cause chain, and the entity classes;
- `seqs.dfy`: flattening of alternate groups, in the nested loop's visiting order;
- `selectors.dfy`: `data_setup`, `data_select`, `data_preproc_setup`, `run_setup`;
- `query.dfy`: `_data_query` and the alternates resolver of `data_query`;
- `fetch.dfy`: `data_fetch`;
- `preprocess.dfy`: `data_preprocess`;
- `teardown.dfy`: `data_teardown`.

## Model

| member | source | states |
|---|---|---|
| Objects.DataKey.Deactivate | mdtf_dagster_demo_1.py:153 | deactivating a data key marks it failed and records the exception that made its fetch raise |
| Objects.Chain | mdtf_dagster_demo_1.py:101-103 | re-typing an exception into a stage kind gives that kind, keeps the root cause and is a new error |
| Objects.Variable.Deactivate | mdtf_dagster_demo_1.py:98 | deactivation marks the variable failed and records the causing error |
| Objects.Variable.DeactivateDataKey | mdtf_dagster_demo_1.py:196-197 | deactivating a data key marks that key failed and records the error |
| Selectors.PodVars | mdtf_dagster_demo_1.py:177 | the pairs are exactly the (pod, variable) pairs with the variable active |
| Selectors.ActiveVars | mdtf_dagster_demo_1.py:72-75 | the variables iterated are exactly the active variables of the case, in the order of the active pairs |
| Selectors.StageBatch | mdtf_dagster_demo_1.py:72-75 | a batch holds each given variable below the target stage, and nothing else, keyed by its name |
| Selectors.DataSetup | mdtf_dagster_demo_1.py:72-79 | an item is in the query batch iff it is an active variable below QUERIED, keyed by its name |
| Selectors.DataSelect | mdtf_dagster_demo_1.py:128-135 | an item is in the fetch batch iff it is an active variable below FETCHED, keyed by its name |
| Selectors.StageBatchAppend | mdtf_dagster_demo_1.py:72-75 | selection keeps iteration order: selecting from a concatenation concatenates the selections |
| Selectors.BatchKeysDistinct | mdtf_dagster_demo_1.py:78-79 | distinct variable names give pairwise distinct mapping keys |
| Selectors.SharedNameCollision | mdtf_dagster_demo_1.py:72-79 | two pods each with an active, unqueried variable of the same name put two items with one mapping key into the query batch |
| Selectors.PreprocBatch | mdtf_dagster_demo_1.py:177-180 | the preprocess batch holds each active pair not yet PREPROCESSED, and nothing else, keyed by pod and variable name |
| Selectors.DataPreprocSetup | mdtf_dagster_demo_1.py:177-180 | an item is in the preprocess batch iff it pairs a pod with one of its active variables not yet PREPROCESSED, keyed by pod and variable name |
| Selectors.PodVarKeyInjective | mdtf_dagster_demo_1.py:180 | if pod names have no underscore, equal preprocess keys mean equal pod and variable names |
| Selectors.PodVarKeyCollision | mdtf_dagster_demo_1.py:180 | otherwise two different name pairs can share a key (`a_b`+`c` and `a`+`b_c`) |
| Selectors.ActivePods | mdtf_dagster_demo_1.py:253 | the active pods are exactly the pods with status active |
| Selectors.KeyedPods | mdtf_dagster_demo_1.py:258-260 | one item per pod, keyed by the pod's name |
| Selectors.RunSetup | mdtf_dagster_demo_1.py:253-260 | nothing is emitted iff no pod is active; otherwise exactly the active pods, each keyed by its name |
| Query.RecordedError | mdtf_dagster_demo_1.py:97-105 | the recorded error is a query event with the raised exception's root cause, and equals the raised exception iff that was already a query event |
| Query.QueryAttempt | mdtf_dagster_demo_1.py:89-105 | an attempt succeeds iff data is found and non-empty (QUERIED, data set, v returned); otherwise v is deactivated, its stage is kept, and the exception is raised |
| Query.Candidates | mdtf_dagster_demo_1.py:107-114 | every variable the resolver may try is the primary or a member of an alternate group |
| Query.FirstAnswered | mdtf_dagster_demo_1.py:107-116 | the index of the first candidate that answers: all before it fail |
| Query.FirstAnsweredAppend | mdtf_dagster_demo_1.py:110-116 | searching a concatenation reaches the second part only when the first part has no answer |
| Query.FirstAnsweredNone | mdtf_dagster_demo_1.py:110-117 | when every candidate fails, none answers |
| Query.TryGroup | mdtf_dagster_demo_1.py:111-116 | one alternate group is tried member by member and returns the first that answers; every member tried before it has been rejected |
| Query.StopInGroup | mdtf_dagster_demo_1.py:110-114 | a stop inside one group is the stop of the whole resolver |
| Query.TryAlternates | mdtf_dagster_demo_1.py:110-116 | groups are tried in order; the result is the first alternate that answers, and exactly the alternates before it are rejected |
| Query.DataQuery | mdtf_dagster_demo_1.py:107-117 | the result is the first candidate that answers, or the primary's own exception; only the tried candidates change |
| Query.AlternateWins | mdtf_dagster_demo_1.py:107-116 | short-circuit: the first answering alternate, by group and member, is the one selected |
| Query.AlternatesExhausted | mdtf_dagster_demo_1.py:107-117 | when every candidate fails, the primary's exception is re-raised |
| Fetch.FetchStop | mdtf_dagster_demo_1.py:146-154 | the loop breaks at the first active, necessary key whose fetch raises |
| Fetch.FetchStopAt | mdtf_dagster_demo_1.py:146-154 | the loop breaks at the first position whose key breaks, and runs to the end when none does |
| Fetch.FirstMissingIn | mdtf_dagster_demo_1.py:156-158 | the first position of an active key without local data |
| Fetch.FetchKeys | mdtf_dagster_demo_1.py:146-154 | the keys end in their after-loop states: skipped, given their files, or deactivated at the break; keys after the break are untouched |
| Fetch.FirstMissing | mdtf_dagster_demo_1.py:156-158 | the check loop finds the first active key without local data |
| Fetch.MissingAmong | mdtf_dagster_demo_1.py:156-158 | no key is missing iff no key state is active without local data; a missing key is one whose state is |
| Fetch.CheckKeys | mdtf_dagster_demo_1.py:156-165 | with no key missing, v reaches FETCHED; otherwise v is deactivated with the chained fetch event for the first missing key and its stage is kept; no key changes |
| Fetch.DataFetch | mdtf_dagster_demo_1.py:141-165 | returns v; the keys end as the fetch loop leaves them; v reaches FETCHED iff no key is then active without data, else it is deactivated for the first such key with its stage kept |
| Fetch.FetchLoopOutcome | mdtf_dagster_demo_1.py:146-154 | for distinct keys: before the break a key is skipped or given its files, the break key is deactivated with its fetch error, and later keys are untouched |
| Fetch.LastFetchRaisesPasses | mdtf_dagster_demo_1.py:146-161 | three fresh keys where only the last fetch raises: the variable reaches FETCHED with its status kept |
| Fetch.FirstFetchRaisesFails | mdtf_dagster_demo_1.py:146-165 | three fresh keys where only the first fetch raises: the check fails on the second key and the variable is deactivated with that error, its stage kept |
| Fetch.FailedFetchPassesCheck | mdtf_dagster_demo_1.py:146-160 | the key whose fetch raised is inactive when checked, so when no other key is missing the check finds nothing and v reaches FETCHED although a fetch failed |
| Preprocess.Discarded | mdtf_dagster_demo_1.py:196-197 | after the handler a key is never active; an active key is failed with the exception and keeps its data; others are unchanged |
| Preprocess.DiscardKeys | mdtf_dagster_demo_1.py:196-197 | every key active when reached is deactivated with the exception; all others are unchanged |
| Preprocess.DataPreprocess | mdtf_dagster_demo_1.py:186-197 | on success v becomes PREPROCESSED and no key changes; on failure the stage is kept and every active key is deactivated, without raising |
| Teardown.Settled | mdtf_dagster_demo_1.py:208-210 | a settled status is never active; active becomes SUCCEEDED, every other status is kept |
| Teardown.DataTeardown | mdtf_dagster_demo_1.py:204-220 | returns the case's pods; every variable of every pod ends with its status settled; nothing else changes |

## Left out

- The Dagster scaffolding is not modelled: solids, input and output definitions, `DynamicOutput` plumbing and `collect`. A batch is a sequence of work items holding the mapping key and the value. The case is present only as its sequence of pods.
- `init_harness` is not modelled: it parses the command line, changes the working directory, keeps only the first case, runs the case's own set-up and installs signal handlers. That is command-line handling, file-system state, signals and hidden library code. The model starts from that one case, as its sequence of pods.
- `run_pod` is not modelled: it copies the process environment, writes a banner to the pod's log file, and spawns and waits for the pod's subprocess, re-raising after the pod's exception handlers. That is operating-system processes and I/O.
- `run_mgr_init`, `run_teardown` and `cleanup_harness` are not modelled. They are thin calls into the external runtime, output and temporary-directory managers.
- The signal handlers that `run_setup` installs are left out. So are the subprocess supervision behind them and all logging.
- The case hooks are not modelled: `pre_query_and_fetch_hook`, `pre_query_hook`, `post_query_hook`, `set_experiment`, `pre_fetch_hook`, `post_fetch_hook`, `post_query_and_fetch_hook`, and the preprocessor's `setup`. They are external collaborators whose effects are not visible.
- `mdtf_dagster_demo_2.py` is not part of this model. It only chains external preprocessing functions.
- A few behaviours of the hidden core library are assumed:
  - `deactivate` and `deactivate_data_key` mark the object failed and record the error. Propagation to a parent object is not modelled.
  - `iter_vars(active=True)` yields every pod with each of its active variables, in order, without removing duplicates.
  - `iter_active_pods` yields the pods whose status is active.
  - `iter_data_keys(status=ACTIVE)` tests each key's status when it reaches that key.
  - `iter_alternates` yields the alternate groups in order.
- Each external call is a deterministic function of its arguments. `is_fetch_necessary` is assumed never to raise. `fetch_dataset` is assumed to set the key's local data. `query_dataset` is assumed to set `v.data` when it returns. Their internals are not part of this model.
- Preprocess.DataPreprocess: what the preprocessor does to the data itself is not modelled, only whether it completes or raises. The solid returns nothing, so the model returns nothing either.
- Teardown.DataTeardown: the debug messages about failed or unused variables and pods only log, so only the status update is modelled.

## Notes

- The fetch stage is not all-or-nothing. The loop breaks at the first key whose fetch raises and deactivates only that key. The check loop then looks only at keys that are still active. `Fetch.FailedFetchPassesCheck` states the consequence: when every other key ends active with data, or inactive, the variable reaches FETCHED although one of its fetches failed. With three keys, `Fetch.LastFetchRaisesPasses` shows the variable passing when only the last fetch raises, and `Fetch.FirstFetchRaisesFails` shows it failing when only the first does. A failure propagated by the hidden `deactivate` would change this, and it is not modelled.
- The query and fetch mapping key is the variable's name alone. Nothing in this code makes names unique across pods, so two pods that each need a variable of the same name give the batch two items with one key. `Selectors.SharedNameCollision` gives an example, and `Selectors.BatchKeysDistinct` gives the condition under which keys are unique.
- The preprocess mapping key is the pod name, an underscore and the variable name, so two different pairs can share a key. `Selectors.PodVarKeyCollision` gives an example, and `Selectors.PodVarKeyInjective` gives the condition under which keys are unique.
