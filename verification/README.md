# Verified models of DeepRec components

This project models the self-contained logic of six parts of the repository in Dafny and proves what each part is
for, on all inputs and over whole runs.

- **Triton backend.** `Sessions`, `CallableModel`, `CallableExactness`, `CallableLifetime`, `TensorLists`,
  `IOLists` and `Backend` model the model object that serves requests either through a session callable, whose outputs are found by
  a cached index map, or through a plain named run. `CallableModel` is a state machine with histories; `Backend` is the
  object itself, over heap-owned linked lists, and every method is proved against the state machine. `Devices` models
  the virtual-device options.
- **Tensor rewrites.** `HeadAttention` (BST), `DotInteraction` (DLRM), `FactorizationMachine` (DeepFM), `CrossNet`
  (DCN), `LowRankCross` (MLPerf DLRM) and `AttentionGru` (DIEN) prove that the reshaped, masked or factored form that
  is computed equals a plain definition. `Vectors` and `Layout` give the tensor operations their meaning.
- **PLE experts.** `ExpertWiring` builds the graph as the program does, `ScopeNames` is about the names of layers,
  `LayerNames` about which models give two layers one name, `ExpertValues` states what streams and predictions compute,
  and `ExpertIsolation` and `PredictionIsolation` what they depend on.
- **Training schedule** (`Schedule`) and **cluster roles** (`Cluster`), as repeated in the modelzoo scripts.
- **configure.py**: `Versions` and `Prompt`.

`Text` holds numerals and string splitting, `Options` an option type.

The session is a parameter: a graph is a function from the fed tensors and a fetch name to a value or a failure, and
whether a callable is accepted is decided by the caller of the model. The user's answers, the success check, the
shuffles, the softmax, the gate and candidate layers of the GRU and the trained weights are parameters too. Arithmetic
is exact: reals for tensors, unbounded integers for sizes.

## Results that correct a first reading of the code

- A callable run can fail where the plain named run succeeds, because it always evaluates every fetch of the callable;
  `RunAgreesWithNamedRun` gives the exact condition, `CallableFailsAlone` an example. For requests outside the documented use (repeated names, names that
  are not currently fetched, inputs not in feed order) `AgreesExactlyWhenProper` shows that agreement is lost.
- The chosen number of epochs is the least that fills every batch, not the least that reaches the last step:
  `EpochsLeastIff` and, for Parquet data, `ParquetEpochsLeastIff` give the exact conditions on the arguments,
  `EpochsNotAlwaysLeast` and `ParquetEpochsNotAlwaysLeast` examples.
- The packed version number is right for a first segment of any size, and ambiguous as soon as a later segment has
  more than three digits (`UnambiguousIffThreeDigitTail`): the check then compares the digits regrouped in threes, so
  that 1.1000.0 counts as 11.0.0 (`CheckDecidesRange`, `LongSegmentExample`). A version whose segments are all zero is
  accepted without being compared, and versions of different lengths are compared aligned at their last segments
  (`CheckDecidesVersionOrder`, `SingleSegmentTooOld`).
- The cluster renumbering shifts workers by one however many chief hosts there are (`RenumberingSoundIff`).
- Two layers of a PLE model can share one name, and with it, where their shapes agree, their weights: tasks of equal
  names do, and a tower whose name spells an extraction path can meet a layer of another task. `NoSharingIff` gives the
  exact condition, `EqualNamesExample` and `SlashPairExample` two such models. The same condition decides whether
  training one task's tower can change another task's prediction (`PredictionsIsolatedIff`, `SlashPairInterferes`).
- The documentation of `convert_version_to_int` names the forms X.YZ and X.Y.Z-xxxxx; the code accepts any number of
  segments, and the model follows the code.

## Model

| member | source | states |
|---|---|---|
| CallableModel.RunAgreesWithNamedRun | addons/triton/tensorflow_backend_tf.cc:520-600 | After any history of accepted and refused remakes and of runs, a request for distinct current fetches with inputs in feed order is defined and, on success, returns exactly what the named run returns; the outcomes are equal exactly when all current fetches evaluate or a requested one fails |
| CallableModel.HistoryKeepsInv | addons/triton/tensorflow_backend_tf.cc:520-565 | In every state of every history the session holds exactly the model's own callable, and every current fetch name is indexed at a position that holds it, despite stale entries and entries inserted by lookups |
| CallableModel.HarvestCurrent | addons/triton/tensorflow_backend_tf.cc:560-567 | Taking distinct current names out of the output vector by moves yields each one's own unmoved tensor |
| CallableModel.HarvestExactly | addons/triton/tensorflow_backend_tf.cc:560-567 | For any request, every name gets what is at its position in the output vector, unless a later name was found at the same position |
| CallableModel.RunAnswers | addons/triton/tensorflow_backend_tf.cc:536-600 | After any history a proper run succeeds exactly when everything it evaluates has a value on the fed tensors, and then the k-th output is the value of the k-th name |
| CallableModel.RemakeIndex | addons/triton/tensorflow_backend_tf.cc:523-532 | After an accepted remake each fetch is indexed at its last position and all other entries are still there; a refused one changes none |
| CallableModel.RunIndex | addons/triton/tensorflow_backend_tf.cc:560-562 | Only a successful run through the callable adds entries: the unknown names it was asked for, at position zero |
| CallableExactness.AgreesExactlyWhenProper | addons/triton/tensorflow_backend_tf.cc:540-567 | In any reachable state with a callable, a request is defined and agrees with the named run on every graph without failing nodes if and only if its names are distinct, all currently fetched, and its tensors feed the names they carry |
| CallableExactness.CallableFailsAlone | addons/triton/tensorflow_backend_tf.cc:540-560 | A callable fetching a and b, in a graph where only b fails: the request for a is proper and defined, fails through the callable and succeeds as a named run |
| CallableExactness.HarvestRepeated | addons/triton/tensorflow_backend_tf.cc:561-566 | Of two equal requested names the earlier one receives a moved-from tensor |
| CallableExactness.RefusedRemakeFallsBack | addons/triton/tensorflow_backend_tf.cc:523-528 | After a refused remake no callable is live, the index map is kept, and runs are plain named runs |
| CallableLifetime.HistorySound | addons/triton/tensorflow_backend_tf.cc:520-534 | At every point of every history the live callables are exactly the model's own, no handle was made while another was live, and none was run or released when not live |
| CallableLifetime.LifetimeReleasesEachHandleOnce | addons/triton/tensorflow_backend_tf.cc:505-534 | Over a whole life ended by the destructor every made handle is released exactly once, no other is, and the session is closed once, last, with nothing live |
| Backend.ModelImpl.constructor | addons/triton/tensorflow_backend_tf.cc:485-503 | On any open session, whatever handles it gave out before, a new model has no callable, an empty index map, its two IO lists and no calls of its own, and its handle variable is arbitrary |
| Backend.ModelImpl.MakeCallable | addons/triton/tensorflow_backend_tf.cc:520-534 | The object's new state is that of the state machine's remake, on acceptance and refusal, and extends its history |
| Backend.ModelImpl.Destroy | addons/triton/tensorflow_backend_tf.cc:505-518 | The object releases its callable, closes the session, frees it and then both IO lists, every block exactly once and in this order; over its life handles are made and released in pairs |
| IOLists.IOListDelete | addons/triton/tensorflow_backend_tf.cc:692-708 | Frees the blocks of the list, none twice |
| IOLists.ListBlocksExactly | addons/triton/tensorflow_backend_tf.cc:692-708 | These blocks are every name, in-model name, dimension array, shape, description and node that is present, and nothing else |
| IOLists.PartsBeforeNodes | addons/triton/tensorflow_backend_tf.cc:695-706 | The parts of a description are freed before it, and it before its node |
| IOLists.ShapeDelete | addons/triton/tensorflow_backend_tf.cc:652-659 | Frees the dimensions, if any, and then the shape; nothing for no shape |
| Backend.ModelImpl.Execute | addons/triton/tensorflow_backend_tf.cc:555-599 | Either path yields the state machine's outcome: an untouched output variable on error, a new list with the outcome's tensors on success |
| Backend.ModelImpl.EmitPositional | addons/triton/tensorflow_backend_tf.cc:560-567 | The reverse loop builds a new list with the harvested tensors in request order and inserts unknown names into the map |
| Backend.ModelImpl.EmitNamed | addons/triton/tensorflow_backend_tf.cc:589-596 | The reverse loop builds a new list with all outputs in order |
| Backend.ModelImpl.Run | addons/triton/tensorflow_backend_tf.cc:536-600 | The input list's tensors and nodes are each freed exactly once on every path; on error the output variable is unchanged; on success it holds a fresh acyclic list disjoint from everything live. For a list whose i-th node holds the tensor of the i-th feed, and distinct current names, the run succeeds exactly when all fetches of the callable have a value on these feeds, and the k-th node of the output holds the value of the k-th name; for every proper request the tensors are those of the named run |
| TensorLists.TensorListDelete | addons/triton/tensorflow_backend_tf.cc:721-737 | Frees the blocks of the list, none twice |
| TensorLists.BlocksExactly | addons/triton/tensorflow_backend_tf.cc:721-737 | These blocks are the nodes and the tensors of the list and nothing else |
| TensorLists.TensorBeforeNode | addons/triton/tensorflow_backend_tf.cc:721-737 | Each tensor is freed before its node |
| TensorLists.NodesFreedInOrder | addons/triton/tensorflow_backend_tf.cc:721-737 | Nodes are freed in list order |
| TensorLists.Prepend | addons/triton/tensorflow_backend_tf.cc:712-719 | A new node with a new tensor in front of an unchanged list; only these two blocks become live |
| TensorLists.MoveInputs | addons/triton/tensorflow_backend_tf.cc:545-552 | Input j is the name and value of the j-th node that has a tensor, every such node gives one, and without empty nodes input i is that of node i; every tensor is left moved-from |
| Devices.CreateVirtualDevices | addons/triton/tensorflow_backend_tf.cc:232-250 | For every device map the visible list splits and parses back to the keys in ascending order, with one virtual device per key carrying that key's limits; an empty map changes nothing |
| Devices.KeysAscending | addons/triton/tensorflow_backend_tf.cc:235 | The iteration visits every key of the ordered map once, in strictly ascending order |
| Devices.VisibleListRoundTrip | addons/triton/tensorflow_backend_tf.cc:236-249 | Splitting the comma-led list after its first character and parsing the numerals gives back any keys, negative ones included |
| Devices.OrderHasEveryKeyOnce | addons/triton/tensorflow_backend_tf.cc:234-235 | The device count equals the number of listed keys |
| HeadAttention.MultiHeadIsPerHead | modelzoo/bst/train.py:149-186 | Head-batched attention equals the plain loop over examples, queries and heads, for every batch, head count, sequence size and head width |
| HeadAttention.MultiHeadEntry | modelzoo/bst/train.py:149-186 | Every single entry of the result is the softmax-weighted sum of the head's value lane over the example's own keys, hidden keys' scores being lowered by 10^9 |
| HeadAttention.MasksAt | modelzoo/bst/train.py:161-170 | After tiling and reshaping, entry h*batch+b has before every query the mask row of example b: key j visible iff j is 0 or at most the history length |
| HeadAttention.BatchedEntry | modelzoo/bst/train.py:149-183 | Row h*batch+b of the batched attention is head h of example b |
| HeadAttention.AllIdsRows | modelzoo/bst/train.py:204-212 | Both branches of padding and slicing give the first size-1 history rows in place, zeros for missing ones, and the current item last |
| DotInteraction.DotOpEntry | modelzoo/dlrm/train.py:121-132 | Column i(i-1)/2+j of row b is the dot product of fields i and j of example b |
| DotInteraction.DotOpRows | modelzoo/dlrm/train.py:126-132 | The global boolean mask and reshape never cross a batch boundary: each row is the strict lower triangle of its own example |
| DotInteraction.ColumnHasOnePair | modelzoo/dlrm/train.py:130-132 | Every output column belongs to exactly one pair of distinct fields |
| FactorizationMachine.SecondOrderIsPairSum | modelzoo/deepfm/train.py:182-184 | Half of square-of-sum minus sum-of-squares is, per dimension, the sum over all pairs of distinct fields |
| FactorizationMachine.SecondOrderTotalIsDotOpTotal | modelzoo/deepfm/train.py:182-184 | Summed over dimensions it equals the total of the DLRM dot interaction of the same stacked tensor |
| CrossNet.CrossNetwork | modelzoo/dcn/train.py:158-177 | The layer loop with scalar products gives, for every row, the network defined with explicit outer-product matrices |
| CrossNet.ClosedForm | modelzoo/dcn/train.py:173-174 | After any number of layers the state is alpha times the input plus the sum of the biases, alpha by a scalar recurrence |
| CrossNet.ZeroBiasProduct | modelzoo/dcn/train.py:173-174 | Without biases the output is the input scaled by the product over layers of one plus the input's product with the layer weights |
| LowRankCross.LowRankCrossNetwork | modelzoo/mlperf/train.py:125-146 | The loop over two narrow dense layers gives the full cross network whose matrices are the factors' products, and the end of every run of states that advances by the entry formula, for any depth, width and rank |
| LowRankCross.StatesIffThrough | modelzoo/mlperf/train.py:128-144 | The states of the network are exactly those that start at the input and advance by x'[i] = x0[i] (sum_j x[j] sum_r v[j][r] w[r][i] + b[i]) + x[i] |
| LowRankCross.ZeroFactorSum | modelzoo/mlperf/train.py:136-144 | With second factors zero the output is x0[i] times one plus the sum of the layers' biases at i |
| Vectors.VecMatAssoc | modelzoo/mlperf/train.py:129-143 | Two dense layers in a row are one dense layer with the product matrix |
| AttentionGru.RunCell | modelzoo/dien/train.py:76-107 | The recurrence over a padded sequence gives the state after the real length |
| AttentionGru.StateEntry | modelzoo/dien/train.py:92-106 | In every coordinate the next state is g h + (1 - g) c with g the update gate times one minus the score and c the candidate of the input and the state times the reset gate |
| AttentionGru.ClosedGatesForget | modelzoo/dien/train.py:94-106 | With closed reset and update gates the next state is the candidate of the input and a zero state |
| AttentionGru.StateIsConvexCombination | modelzoo/dien/train.py:92-106 | In every coordinate and after any number of steps the state is a combination of the initial value and all candidates with weights in [0,1] that sum to one |
| AttentionGru.WeightsSumToOne | modelzoo/dien/train.py:105-106 | The products of gates telescope to one, whatever the gates |
| AttentionGru.StateStaysBounded | modelzoo/dien/train.py:92-106 | From a start in [-1,1] the state never leaves [-1,1] |
| AttentionGru.ZeroAttentionIsPlainGru | modelzoo/dien/train.py:105-106 | With all scores zero the run is the plain GRU run |
| ExpertWiring.CgcModel | modelzoo/ple/train.py:195-248 | Appending and slicing flat expert lists yields, per task, its own experts at the first gate weights and the shared ones at the rest, and a shared stream with expert j of task i at weight i*specific+j and the shared ones last, unless it is the last level |
| ExpertValues.TaskStreamValue | modelzoo/ple/train.py:207-229 | Under the gated sum, the value of a task's stream is the sum of its experts' outputs times the first weights of its gate and of the shared experts' outputs times the remaining ones |
| ExpertValues.SharedStreamValue | modelzoo/ple/train.py:232-247 | The value of the shared stream is the sum of expert j of task i times weight i*specific+j and of the shared experts times the last weights |
| ExpertValues.TaskLevelValue | modelzoo/ple/train.py:280-288 | So every task's stream of every level follows from the streams of the level before |
| ExpertValues.SharedLevelValue | modelzoo/ple/train.py:280-288 | So does the shared stream |
| ExpertValues.OneHotGate | modelzoo/ple/train.py:211-229 | A gate fully on weight j passes on expert j of the task, and on weight specific+k shared expert k |
| ExpertValues.StackIsThrough | modelzoo/ple/train.py:177-193 | A stack passes its input through its layers in the order of their numbers, each with its own units |
| ExpertValues.PredictionValue | modelzoo/ple/train.py:291-300 | A prediction is the output unit applied to the task's last stream after the tower's layers in order |
| ExpertValues.EvalIsValue | modelzoo/ple/train.py:170-193 | Evaluating with weights found by name is evaluating layer by layer |
| ExpertWiring.BuildLevels | modelzoo/ple/train.py:280-288 | Every level is called with one stream per task plus the shared one, and the outputs are the task streams after the last level |
| ExpertWiring.BuildDnn | modelzoo/ple/train.py:177-193 | The layer loop stacks the layers of one name, numbered from zero |
| ExpertWiring.BuildTowers | modelzoo/ple/train.py:290-304 | The tower loop puts on each task's last stream its own tower's layers and one output unit |
| ExpertIsolation.StreamsFit | modelzoo/ple/train.py:211-246 | In every model each gate has one weight per stacked expert, at every level |
| ExpertIsolation.StreamDependencies | modelzoo/ple/train.py:195-248 | Exactly which layers each stream reads after any number of levels: other tasks' experts only from below the last level and their gates only from two levels below, through a shared stream |
| ExpertIsolation.NonInterference | modelzoo/ple/train.py:195-288 | Changing the weights of any extraction layers a task does not read leaves its stream unchanged, although weights are found by name under automatic reuse |
| PredictionIsolation.PredictionReads | modelzoo/ple/train.py:195-304 | Exactly which layers, by their place in the model, take part in computing a task's prediction, towers included |
| PredictionIsolation.IsolatedIff | modelzoo/ple/train.py:177-304 | One task's prediction is unaffected by every change of layers it does not read if and only if none of them shares its name with a layer it does read |
| PredictionIsolation.NoLeakIsolates | modelzoo/ple/train.py:177-304 | The sufficient half for weights and activations of any kind |
| PredictionIsolation.PredictionsIsolatedIff | modelzoo/ple/train.py:177-304 | Every task's prediction is unaffected by every change of layers it does not read, other towers included, if and only if the tower names are pairwise distinct and no tower clashes with a task |
| PredictionIsolation.ClearNamesIsolate | modelzoo/ple/train.py:177-304 | The sufficient half for weights and activations of any kind |
| PredictionIsolation.ClashingNamesDiffer | modelzoo/ple/train.py:195-304 | A tower never clashes with a task of its own name |
| PredictionIsolation.SlashPairInterferes | modelzoo/ple/train.py:195-304 | A model with two distinct tower names in which changing the first tower's hidden layer alone changes the second prediction |
| ScopeNames.ExtractionNamesDistinct | modelzoo/ple/train.py:177-240 | Level, kind, task name, expert and layer numbers can be read off the name of an extraction layer, for any strings as task names: two such layers share a name only if they agree in all of these |
| ScopeNames.TowerNamesDistinct | modelzoo/ple/train.py:291-301 | The tower name and the layer number can be read off the name of a tower layer |
| ScopeNames.ExpertPathExamples | modelzoo/ple/train.py:200-207 | The names of a specific and a shared expert layer, written out |
| ScopeNames.GatePathExamples | modelzoo/ple/train.py:221-240 | The names of task and shared gates and their hidden layers, written out |
| ScopeNames.TowerPathExamples | modelzoo/ple/train.py:291-301 | The names of a tower layer and its output, written out |
| ScopeNames.TowerMeetsIff | modelzoo/ple/train.py:195-301 | A tower layer has the name of an extraction layer if and only if the tower's name continues a level path by one of the three gate and expert prefixes and the other task's name is built around it, with matching layer number |
| LayerNames.NoSharingIff | modelzoo/ple/train.py:177-301 | With layers told apart by task number: all layers a model builds have distinct names if and only if its tower names are pairwise distinct and no tower clashes with a task at a level of the model |
| LayerNames.BuiltIsWired | modelzoo/ple/train.py:195-248 | The listed extraction layers are exactly those that the built graph of their level contains |
| LayerNames.SlashFreeTowersAreClear | modelzoo/ple/train.py:177-301 | Pairwise distinct tower names without a slash never share a layer name, at any sizes |
| LayerNames.TrainedTowersAreClear | modelzoo/ple/train.py:86-90 | The model the script trains has no shared layer, at any sizes |
| LayerNames.EqualNamesExample | modelzoo/ple/train.py:291-301 | A model with two tasks named ctr and the trained units: all equally named layers agree in shape, so it is built, and some of them share weights |
| LayerNames.SlashPairExample | modelzoo/ple/train.py:195-301 | A one-level model with two distinct tower names, all of whose equally named layers agree in shape, and two of which share weights |
| LayerNames.StreamWidths | modelzoo/ple/train.py:177-248 | Every stream of the built graph has the width from which the layer shapes are computed |
| Schedule.TextNeverRunsOut | modelzoo/dlrm/train.py:330-337 | With the planned epochs the text pipeline lasts to the last step, with full batches under a step limit; without a limit every example is used exactly once |
| Schedule.ParquetNeverRunsOut | modelzoo/dlrm/train.py:320-329 | With the planned epochs per-pass batching lasts to the last step, each pass delivering every row once; without a limit the steps use every row exactly once |
| Schedule.ParquetSupply | modelzoo/dlrm/train.py:320-329 | However each pass is shuffled, passes supply one batch per full or partial block of rows, and each pass every row once |
| Schedule.TextSupply | modelzoo/dlrm/train.py:332-336 | Exactly how many steps, and how many full batches, a number of passes supplies |
| Schedule.EpochsLeastForFullBatches | modelzoo/dlrm/train.py:616-619 | The planned epochs are the least that make every step's batch full |
| Schedule.EpochsLeastIff | modelzoo/dlrm/train.py:616-619 | The planned epochs are the least that reach the last step if and only if the last step's batch lies within one pass, a condition on batch size, steps and examples alone |
| Schedule.ParquetEpochsLeastIff | modelzoo/dlrm/train.py:616-619 | For Parquet data the least number of passes is steps over batches per pass, rounded up, and it is the planned number of epochs if and only if so many passes hold a full batch of rows for every step |
| Schedule.EpochsNotAlwaysLeast | modelzoo/dlrm/train.py:616-619 | Ten examples, batches of four, three steps: one epoch would do, two are planned |
| Schedule.ParquetEpochsNotAlwaysLeast | modelzoo/dlrm/train.py:616-619 | Five rows, batches of four, two steps: one pass would do, two are planned |
| Schedule.PlanTraining | modelzoo/dlrm/train.py:607-620 | Planning divides by zero exactly for an empty batch or a step limit without examples; otherwise it plans one epoch and as many steps as cover the examples, or the step limit and the least epochs whose examples fill its batches |
| Schedule.BatchSize | modelzoo/dlrm/train.py:607-610 | The batch is the least whose micro-batches cover the requested batch |
| Schedule.CeilDiv | modelzoo/dlrm/train.py:607-620 | The quotient covers the dividend and one less does not |
| Cluster.GenerateClusterInfo | modelzoo/dlrm/train.py:858-909 | For any order of the items: it exits without a ps host or without any chief or worker host; a ps task gets its own index; a worker or chief task gets the listed ps hosts, the chief hosts followed by the worker hosts, its index shifted by one for a worker beside chiefs, chief exactly at index zero, and, for a chief and with at most one chief host, an index that points at its own host; any other type exits |
| Cluster.RenumberingSoundIff | modelzoo/dlrm/train.py:871-884 | New indices of chief and worker tasks are distinct, and point at the task's own host in the merged list, if and only if there is at most one chief host or no worker |
| Cluster.RolesSoundIff | modelzoo/dlrm/train.py:871-900 | The roles handed out give every training task the position of its own host, and different tasks different indices, if and only if there is at most one chief host or no worker |
| Cluster.ExactlyOneChief | modelzoo/dlrm/train.py:879-886 | In every accepted configuration exactly one training process is the chief |
| Versions.EncodeOrder | configure.py:449-459 | For equally long segment lists with three-digit segments after the first, the packed integers are ordered and equal exactly as the lists are lexicographically |
| Versions.UnambiguousIffThreeDigitTail | configure.py:458-459 | A packed version is told apart from every well-formed one of its length if and only if its later segments have at most three digits |
| Versions.CheckDecidesRange | configure.py:483-506 | For all versions that parse, of any lengths and segment sizes, the check rejects exactly those below the minimum, or above the maximum without the override, in the order of their digits regrouped in threes, except that an all-zero version is accepted as unknown |
| Versions.UnparsedOutcomes | configure.py:483-506 | An installed version that does not parse is accepted as unknown whatever the bounds; a bound that does not parse fails as soon as it is compared |
| Versions.CheckDecidesVersionOrder | configure.py:483-506 | For versions with at most three digits in every segment after the first this is the order of the segments aligned at the last one |
| Versions.RegroupedExactIff | configure.py:458-459 | Regrouping leaves a version as it is if and only if its segments after the first have at most three digits |
| Versions.LongSegmentExample | configure.py:458-506 | 1.1000.0 is before 2.0.0 but is compared as 11.0.0, which is after it |
| Versions.EncodeOrderAligned | configure.py:458-459 | Packed integers of versions of any lengths, with at most three digits in every segment after the first, are ordered and equal exactly as their right-aligned segments are lexicographically |
| Versions.AlignedIsZeroFilled | configure.py:458-459 | Right alignment puts zero segments in front when the first segment has at most three digits |
| Versions.SingleSegmentTooOld | configure.py:483-506 | A version of one segment from 1 to 999 is rejected as too old for every minimum that has a segment other than zero before its last |
| Versions.DottedFormRoundTrip | configure.py:449-456 | Segments written with dots and any suffix are read back, two segments being completed with a zero |
| Versions.ForeignCharacterRejected | configure.py:449-456 | A version with a character other than digits and dots before its first dash gets no number, with or without a suffix |
| Versions.EmptySegmentRejected | configure.py:450-456 | A version with an empty segment anywhere gets no number, with or without a suffix |
| Prompt.GetFromEnvOrUserOrDefault | configure.py:589-595 | A set, non-empty variable is returned without reading; otherwise one answer is read and returned, or the default if it is empty |
| Prompt.PromptLoopOrLoadFromEnv | configure.py:658-680 | At most the given number of checks; the first check is offered a set variable, every other one the next answer, or, if that is empty, the variable or else the default; success returns and stores the first value that passes; failure means all failed and leaves the variable empty; no other variable changes; one answer is read per check, none for a set variable |

## Left out

- The session, the graph optimisers, SavedModel loading, GPU allocators and device queries: foreign code behind a parameter.
- TRITONTF_IOListNew, the model-creation functions and RunOp: list construction repeats that of tensor lists, and creation frees nothing on its error paths.
- The empty-device error of TRITONTF_ModelMakeCallable and the copying of its name arrays: one branch before the modelled call.
- Backend.ModelImpl.Run: does not bound an output index that lies outside the output vector, because the source leaves that undefined; it is a precondition, met by every proper request.
- Graphs whose value depends on more than the fed tensors (random or stateful nodes): the two run paths cannot be compared there.
- Floating-point rounding, bf16 casts and the numerics of softmax, sigmoid and tanh; the ceiling divisions are exact where the scripts divide floats.
- HeadAttention.MultiHeadIsPerHead: does not include the dense projections before and after, which act on each position separately and would only be carried along.
- Batch normalisation, summaries, the sigmoid and the loss on top of PLE's predictions: they act on each layer or prediction by itself.
- ExpertWiring.BuildLevels: does not model models without tasks, experts or levels, which the program cannot build.
- Work queues, micro-batching inside a step, negative step or batch arguments and the session loop: the schedule is about the batches the pipeline delivers.
- Schedule.ParquetNeverRunsOut: relies on a Parquet pass delivering one batch per full or partial block of rows, because the reader is foreign code.
- JSON parsing, the server start and device placement in generate_cluster_info.
- Versions.CheckDecidesRange: does not model the detection of the installed version from the shell, including the removal of a leading "bazel ", and reads digits as ASCII digits only.
- The other modelzoo scripts, feature columns, optimisers, losses and metrics: they repeat these parts or wrap unseen libraries.
