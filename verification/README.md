# Spike-based sampling: the bookkeeping of networks of sampling neurons

This project models the discrete core of the spike-based sampling library
`sbs`. In that library a Boltzmann machine is a network of leaky
integrate-and-fire "samplers". Each sampler is a neuron whose refractory
state encodes a binary random variable. The model covers the data handling
around the simulator:

- how a network resolves its sampler parameters;
- how it broadcasts, checks and converts weight and delay matrices, and
  builds the connection tables of its projections;
- how it loads calibrations and selects samplers;
- how it reads marginals and binary states from spikes;
- how the "rapid" machine prepares every run, and how the layered RBM
  variant lays out its weight blocks;
- how background sources (Poisson generators and fixed spike trains) are
  grouped, deduplicated and wired to samplers;
- the small utilities these rely on: time-ordered spike merging, duration
  formatting, grouping of identical parameters, the in-place
  `fill_diagonal`.

The simulator, the compiled kernels and the statistics are outside the
model. What the code hands to the simulator (connection lists, synapse
types, generator windows, weights per synapse) is returned as values, and
the contracts state what those values are.

Modules, one per file:

- `Wrappers`: `Option`, `Result` and the Python exception kinds.
- `Matrices`: dense matrices and the in-place `FillDiagonal`.
- `Spikes`: the time-ordered spike merge.
- `TimeFormat`: durations.
- `Params`: parameter grouping and small dictionary helpers.
- `SourceParams`: the excitatory/inhibitory source split of `utils.py`.
- `Network`: `BoltzmannMachineBase` as functions.
- `Machine`: the same machine as a class whose setters update its fields.
- `Thorough`: the connection tables of `ThoroughBM.create`.
- `Rapid`: `RapidBMBase` and `RapidBMCurrentImprint`.
- `Rbm`: `MixinRBM`.
- `Sources`: `sbs/db/sources.py`.

Where the code and its documentation disagree, the model follows the code:

- The weight conversions do not force the diagonal to zero. Only the
  setters' check (`_check_weight_matrix`) does that; see
  `Network.ConvertedDiagonal`.
- The delays setter always broadcasts a scalar to a matrix. The
  `global_delay` branch of `ThoroughBM.create` is therefore never taken; see
  `Network.CheckedDelaysNotScalar`.
- Both source configurations are documented as "positive weights:
  excitatory". The code is not consistent about zero weights, though. On
  the NEST-optimised Poisson path and in `connect_one_to_one`, a zero weight
  is inhibitory. In `connect_sources_regular` it is excitatory; see
  `Sources.ZeroWeightSides`.
- `utils.py` repeats `fill_diagonal`, `get_ordered_spike_idx`,
  `get_time_tuple`, `format_time` and `get_eta` from `sbs/utils.py` line for
  line. Each is modelled once and cited at its `sbs/utils.py` lines.

## Model

| member | source | states |
|---|---|---|
| Matrices.Fill | network.py:424-426 | `np.empty((r, c)).fill(x)` is an r x c matrix holding x everywhere |
| Matrices.Column | network.py:269 | the slice `m[:, j]` has one entry per row, entry i being `m[i][j]` |
| Matrices.WithDiagonal | sbs/utils.py:293-307 | the matrix `fill_diagonal` leaves: square, diagonal equal to the value, every off-diagonal entry unchanged |
| Matrices.FillDiagonal | sbs/utils.py:293-307 | fails the assertion (and leaves the array) exactly when it is not square; otherwise returns the same array, whose new contents are `WithDiagonal` of the old |
| Spikes.Tagged | sbs/utils.py:495-499 | the records written for train i are `(i, t)` for each spike time t, in the train's order |
| Spikes.FlattenLength | sbs/utils.py:490-491 | the record array has `sum(len(st))` slots, one per spike |
| Spikes.TotalSpikesPrefix | sbs/utils.py:493-501 | the cursor never passes the end of the record array |
| Spikes.FlattenContents | sbs/utils.py:493-501 | the filled array holds record `(i, t)` exactly as often as train i holds t, and nothing for a neuron outside the list |
| Spikes.CountIdFlatten | sbs/utils.py:493-501 | neuron i contributes exactly `len(spiketrains[i])` records |
| Spikes.CountIdPermutation | sbs/utils.py:503-504 | reordering the records keeps every neuron's record count |
| Spikes.WriteTrain | sbs/utils.py:498-499 | the slots `current .. current+len(st)` receive the records `(i, t)` of the train; earlier slots are untouched |
| Spikes.InsertByTimeSorted | sbs/utils.py:503-504 | inserting a record into a time-sorted sequence keeps it sorted and adds exactly that record |
| Spikes.InsertByTimeLowerBound | sbs/utils.py:503-504 | a time below the inserted record and below every record stays below every record after the insertion |
| Spikes.SortByTime | sbs/utils.py:503-504 | `argsort` by time: the result is sorted by time and is a permutation of the input |
| Spikes.OrderedSpikeIdx | sbs/utils.py:484-506 | `get_ordered_spike_idx` returns `sum(len(st))` records, sorted by time, that are a permutation of the records `(i, t)` of all trains |
| Spikes.PairwiseCorrelationInput | sbs/utils.py:333-355 | raises ValueError exactly for an empty list of trains or a refractory list of the wrong length; otherwise hands over the ids and times sorted by time, which are a permutation of the trains' spikes, and one refractory period per neuron (a scalar is broadcast) |
| TimeFormat.Decompose | sbs/utils.py:385-395 | the closure yields one field per delta |
| TimeFormat.TimeTupleOf | sbs/utils.py:398-399 | a time tuple has the five fields d, h, m, s, ms |
| TimeFormat.TimeTupleSteps | sbs/utils.py:379-399 | the closure over `TIME_DELTAS` (86400, 3600, 60, 1, 0.001 seconds) gives floor quotients of the running remainders |
| TimeFormat.TimeTupleBounds | sbs/utils.py:385-399 | hours, minutes, seconds and milliseconds lie in their ranges; days are negative exactly when the duration is; the weighted sum falls short of the duration by less than a millisecond |
| TimeFormat.GetTimeTuple | sbs/utils.py:385-399 | the step-by-step closure computes the time tuple, with fields in range and the sum within a millisecond of the input |
| TimeFormat.NatToString | sbs/utils.py:404-405 | `"{0}".format(n)` gives a non-empty string of decimal digits without a leading zero |
| TimeFormat.NatToStringRoundTrip | sbs/utils.py:404-405 | the decimal text of a number reads back as the number |
| TimeFormat.PartsShape | sbs/utils.py:402-406 | `format_time` shows one part per positive field, each the field's digits followed by its name; zero fields are left out |
| TimeFormat.FormatTimeEmpty | sbs/utils.py:402-406 | a formatted duration is empty exactly when no field is positive |
| TimeFormat.SubMillisecondIsEmpty | sbs/utils.py:402-406 | a non-negative duration under one millisecond formats as the empty string |
| TimeFormat.FormatTime | sbs/utils.py:402-406 | a formatted duration contains no slash |
| TimeFormat.GetEta | sbs/utils.py:409-418 | "N/A" exactly when no work is done; otherwise `eta * current == elapsed * (total - current)` |
| TimeFormat.GetEtaStr | sbs/utils.py:421-440 | "N/A" exactly when `current` is not strictly between 0 and `total`; otherwise the formatted estimate of `get_eta` |
| Params.KeySet | sbs/utils.py:693 | the keys of the parameter dictionary |
| Params.SizedLengths | sbs/utils.py:676-678 | `all_num_elements` holds the lengths of the sized values; it is empty only when every value is a scalar |
| Params.Signature | sbs/utils.py:709-710 | the combination of element i has one entry per key, that key's value for element i |
| Params.DictOf | sbs/utils.py:721-722 | the yielded dictionary maps each key to the combination's value for that key |
| Params.ScalarDict | sbs/utils.py:680-684 | with all values scalar, the parameters are yielded as they are |
| Params.MatchesSignature | sbs/utils.py:714-716 | an element matches a group's dictionary exactly when its combination is the group's |
| Params.DictOfInjective | sbs/utils.py:721-722 | different combinations yield different dictionaries |
| Params.GroupsDisjoint | sbs/utils.py:712-722 | no element lies in two yielded groups |
| Params.UniqueCombinations | sbs/utils.py:709-710 | `uniq_combs` holds each element's combination, no other, and none twice |
| Params.CombinationMask | sbs/utils.py:714-716 | `elem_indices[i]` holds exactly when element i has the combination |
| Params.Nonzero | sbs/utils.py:721 | `nonzero()[0]` lists exactly the true positions, ascending |
| Params.GroupsOf | sbs/utils.py:712-722 | the loop over the combinations yields a grouping: non-empty ascending groups holding exactly the matching elements, distinct dictionaries, every element covered |
| Params.GroupingFromCombinations | sbs/utils.py:712-722 | one group per occurring combination with its matching elements is a grouping |
| Params.GroupIdenticalParameters | sbs/utils.py:644-722 | all scalars and no count give the single group `[0]` with the parameters; a sized value whose length differs from the count raises ValueError; otherwise the result is a grouping of the elements |
| Params.FilterDict | sbs/utils.py:598-604 | keeps exactly the entries for which `f(key, value)` holds, with their values |
| Params.FilterDictIdempotent | sbs/utils.py:598-604 | filtering twice with the same predicate equals filtering once |
| Params.NestKeyConnections | sbs/utils.py:577-578 | the sort key is source gid, target gid and receptor port |
| Params.NestKeyIgnoresThread | sbs/utils.py:557-578 | two connections get the same key exactly when they agree on source, target and receptor port |
| Params.CheckListArray | sbs/utils.py:509-510 | true exactly for a `collections.Sequence` kind (strings included) or a numpy array |
| SourceParams.ExcSources | utils.py:143 | the sources counted as excitatory are the ones with `is_exc`, in order |
| SourceParams.InhSources | utils.py:144 | the remaining sources are the inhibitory ones, in order |
| SourceParams.Rates | utils.py:155-163 | the rates of a list of sources, entry by entry |
| SourceParams.Weights | utils.py:155-163 | the weights of a list of sources, entry by entry |
| SourceParams.SplitIsPartition | utils.py:143-144 | the two classes together hold every source exactly as often as the input does |
| SourceParams.SplitLength | utils.py:144 | `num_sources_inh == num_sources - num_sources_exc` counts the inhibitory sources |
| SourceParams.StepSplit | utils.py:155-163 | one loop step appends the source to the list of its class only |
| SourceParams.ExcPrefixBound | utils.py:146-163 | the counters never pass the sizes the arrays were allocated with |
| SourceParams.GetAllSourceParameters | utils.py:136-165 | the four arrays have the counted sizes and hold the rates and weights of the excitatory and the inhibitory sources, in source order |
| SourceParams.Store | utils.py:156-163 | writing the next source at its class's counter extends that class's filled rates and weights by its rate and weight |
| Network.SimName | network.py:181-187 | the name carries the "pyNN." prefix; a prefixed name is kept |
| Network.SimNameIdempotent | network.py:181-187 | normalising twice equals normalising once |
| Network.PyIndex | network.py:100-101 | Python list indexing: negative indices count from the end; anything outside raises IndexError |
| Network.PickSamplers | network.py:98-103 | sampler k takes model and parameters at `idx[k]`; fails with IndexError exactly when some index misses either list |
| Network.Range | network.py:96 | `range(n)` is `0, ..., n-1` |
| Network.ModelsOf | network.py:87-88 | one model name is repeated once per sampler; a list of names is kept |
| Network.ParamIndices | network.py:95-96 | a list of dictionaries is indexed by `neuron_index_to_parameters`, or by `range(num_samplers)` without one |
| Network.ResolveSamplers | network.py:82-113 | parameters without a model raise ValueError; neither parameters nor ids raise; one id is repeated per sampler; a single dictionary is shared by all samplers, each taking the first model; with a list, sampler k takes model and dictionary at the k-th parameter index, and IndexError is raised exactly when some index misses either list |
| Network.SingleDictResolution | network.py:90-103 | a single dictionary gives `num_samplers` samplers that all use it |
| Network.ListResolution | network.py:95-103 | a list of dictionaries without an index map gives sampler i the i-th dictionary |
| Network.ModelIndexedByParameterIndex | network.py:87-103 | the model list is indexed by the parameter index too, so an index map past `num_samplers` raises IndexError |
| Network.IndexMapResolution | network.py:54-59 | with an index map inside the dictionaries and the samplers, sampler i gets `neuron_parameters[neuron_index_to_parameters[i]]` |
| Network.ToArray | network.py:421 | `np.array(rows)` of a rectangular list gives a fresh array with those rows |
| Network.CheckWeightMatrix | network.py:420-433 | a scalar or an N x N input passes, anything else fails the assertion; the result is N x N with zero diagonal and the input (or the scalar) elsewhere |
| Network.CheckDelays | network.py:435-443 | a scalar becomes an N x N matrix of it; anything else is kept |
| Network.CheckedDelaysNotScalar | network.py:471 | checked delays are never a scalar, so `global_delay` is always false |
| Network.ConvertColumns | network.py:265-278 | column j is sampler j's conversion of input column j; columns without a sampler stay zero; more samplers than columns raise IndexError |
| Network.ConvertedDiagonal | network.py:265-278 | a zero diagonal stays zero under conversions that map zero to zero |
| Network.AllSamplersSameModel | network.py:337-347 | true exactly when every two samplers share the model |
| Network.LoadCalibration | network.py:318-335 | the parameter ids of exactly the samplers that fail to load, in sampler order; sampler i is asked for `ids[i]`, or the latest past the end |
| Network.TsoParams | network.py:301-316 | `{"U": 1, "u": 1}` unless set, otherwise what was set |
| Network.InsertDistinct | network.py:642 | adding to a set keeps it ascending and duplicate-free |
| Network.SelectedSamplerIdx | network.py:640-642 | the selection holds the given indices without repetition |
| Network.PySlot | network.py:652-657 | the slot Python's `a[i]` lands on lies inside the array |
| Network.PySlotIndexes | network.py:652-657 | that slot is `i mod len(a)`, and Python indexing reads the entry there |
| Network.RawMarginalsStep | network.py:654-657 | one turn of the loop writes its own slot and leaves the others |
| Network.RawMarginalsLastWrite | network.py:654-657 | a slot holds `len(spikes) * tau_refrac` of the last turn that wrote it |
| Network.RawMarginalsUnwritten | network.py:652-657 | a slot that no turn wrote keeps its 0 |
| Network.MarginalsLoop | network.py:652-657 | the loop as written raises IndexError exactly when some selected index is not a valid Python index of the samplers or of the marginals array; otherwise it leaves the writes of every turn |
| Network.DistMarginalSimAsWritten | network.py:644-661 | the loop as written succeeds exactly when each selected index, negative ones counting from the end, indexes both the samplers and the marginals array; the slot of selected index i then holds the marginal of sampler i from its last write, and a slot nobody writes holds 0 |
| Network.LastSamplerByNegativeIndex | network.py:652-657 | selecting `-1` of two samplers raises nothing and fills the one slot from sampler 1 |
| Network.SlotsIndexableOnlyForPrefix | network.py:652-657 | for an ascending selection of non-negative indices the loop as written works only for the selection `0, ..., k-1` |
| Network.SecondSamplerAloneFails | network.py:652-657 | selecting only sampler 1 of two raises IndexError in the loop as written |
| Network.DistMarginalSim | network.py:644-661 | slot k holds the marginal of the sampler the k-th selected index picks, negative indices counting from the end; only a selected index without a sampler raises IndexError |
| Network.Marginal | network.py:657 | the marginal times the duration is the time spent refractory, `len(spikes) * tau_refrac`; no spikes give 0 |
| Machine.TheoToBioMaps | network.py:272-278 | the per-column conversions used for `weights_bio` are the samplers' `theo_to_bio`, in order |
| Machine.BioToTheoMaps | network.py:265-270 | the per-column conversions used for `weights_theo` are the samplers' `bio_to_theo`, in order |
| Machine.BoltzmannMachine.constructor | network.py:76-120 | zero theoretical weights, saturating synapses on, delay 0.1 everywhere, every sampler selected, the normalised simulator name |
| Machine.BoltzmannMachine.SetWeightsTheo | network.py:189-203 | stores the checked matrix as theoretical weights; a failed check leaves the weights; every other field keeps its value |
| Machine.BoltzmannMachine.SetWeightsBio | network.py:208-222 | stores the checked matrix as biological weights; a failed check leaves the weights; every other field keeps its value |
| Machine.BoltzmannMachine.WeightsBio | network.py:208-225 | the stored biological weights, or the theoretical ones converted column by column with the target sampler's `theo_to_bio`, columns without a sampler left zero; more samplers than columns raise IndexError |
| Machine.BoltzmannMachine.WeightsTheo | network.py:189-206 | the stored theoretical weights, or the biological ones converted with `bio_to_theo`, columns without a sampler left zero; more samplers than columns raise IndexError |
| Machine.BoltzmannMachine.SetDelays | network.py:280-290 | stores `_check_delays` of the argument; every other field keeps its value |
| Machine.BoltzmannMachine.SetSelectedSamplerIdx | network.py:640-642 | stores the indices without repetition; every other field keeps its value |
| Machine.BoltzmannMachine.SetTsoParams | network.py:301-316 | stores the TSO parameters; every other field keeps its value |
| Machine.BoltzmannMachine.SetSaturatingSynapsesEnabled | network.py:227-233 | stores the flag; every other field keeps its value |
| Machine.BoltzmannMachine.Create | network.py:456-551 | different models fail the assertion and leave the machine uncreated; otherwise the machine is created even if the rest fails; it succeeds exactly when `weights_bio` can be read and every connected position finds its delay and `tau_rec`, and then returns one projection per sign present, excitatory first, whose connection list is exactly the positions of that sign in the biological weights, with positive weights and, for biological weights, no self-connection |
| Machine.SynapseTaus | network.py:481-487 | each sampler's `(tau_syn_E, tau_syn_I)`, in sampler order |
| Machine.RangeSelection | network.py:120 | the initial selection `range(n)` keeps every sampler in order |
| Machine.InsertLargest | network.py:642 | adding an index above all others appends it |
| Thorough.WeightFactor | network.py:504-510 | -1 for inhibitory weights, times 1000 for saturating synapses under the NEST optimisation |
| Thorough.DelayAt | network.py:521-522 | `delays[i, j]` of a matrix inside its shape; a flat list raises IndexError |
| Thorough.TauRecAt | network.py:481-487 | looked up per connection target: the target's `tau_syn_E` for excitatory and `tau_syn_I` for inhibitory connections; a missing sampler raises IndexError |
| Thorough.ConnectionList | network.py:519-525 | one tuple per position of the weight's sign, in `np.nonzero` order and no other; a missing delay or `tau_rec` raises IndexError |
| Thorough.Visit | network.py:520-525 | one loop step appends the tuple of a selected position and nothing else |
| Thorough.ListedGrows | network.py:525 | appending keeps every listed position |
| Thorough.ConnectionWeightsPositive | network.py:501-510 | every stored weight is positive |
| Thorough.ConnectionListShape | network.py:464-467 | a zero weight is never connected; no position is connected twice; with zero diagonal no sampler connects to itself |
| Thorough.ListsDisjoint | network.py:466-467 | the excitatory and the inhibitory lists share no position |
| Thorough.ColumnNames | network.py:473-480 | `weight`, `delay`, and `tau_rec` exactly when synapses saturate and `tau_rec` is not overwritten |
| Thorough.SynapseTypeFor | network.py:527-543 | static without saturation; Tsodyks-Markram without `u` in PyNN; native `tsodyks2_synapse` with all TSO parameters under the NEST optimisation |
| Thorough.ProjectionFor | network.py:494-549 | no projection when no weight has the sign; otherwise the connection list with its column names and synapse type |
| Thorough.CreateProjections | network.py:493-551 | succeeds exactly when every position of either sign finds its delay and `tau_rec`; then the excitatory projection and the inhibitory one, each only when weights of its sign exist, each with its exact connection list |
| Thorough.LookupsBySign | network.py:494-496 | every connected position finds its lookups exactly when each sign present does; a sign without weights is skipped |
| Rapid.RowWhere | network.py:1011 | the positions of one row where the mask holds, in column order |
| Rapid.Where | network.py:1011 | `np.where(mask)` lists positions where the mask holds, in row-major order |
| Rapid.RowWhereComplete | network.py:1011 | every true position of a row is listed |
| Rapid.WhereComplete | network.py:1011 | every true position of the mask is listed |
| Rapid.NonzeroMask | network.py:1000-1001 | the default connectivity holds exactly where the biological weight is nonzero |
| Rapid.MaskedWeights | network.py:893-896 | the weights sent to NEST are `1000 * w` at the connected positions, in `np.where` order |
| Rapid.DefaultMaskWeights | network.py:893-896 | with the default mask every written weight is nonzero and every nonzero weight is written |
| Rapid.Shifted | network.py:936 | the detector's indices less the first sampler's gid |
| Rapid.LastSpiketimes | network.py:926-942 | times as reported when there is one per sampler; otherwise IndexError exactly when a shifted index misses the slots, and each slot holds the last time written to it, or 0 |
| Rapid.DistinctScatter | network.py:939-941 | with distinct slots each reported sampler gets its own time and the others keep 0 |
| Rapid.StateFromSpikes | network.py:958-960 | state 1 exactly when the last spike lies less than `tau_refrac` in the past, else 0 |
| Rapid.UnreportedSamplerState | network.py:939-960 | a sampler the detector did not report reads as on exactly while the clock is below its refractory time |
| Rapid.Sign | network.py:1047 | `2 * state - 1` |
| Rapid.Amplitude | network.py:1047 | `imprint_current * 1000 * (2*state - 1)`: plus 1000 times the current for state 1, minus for state 0 |
| Rapid.ImprintCurrent | network.py:1050-1059 | 10 nA unless set |
| Rapid.WipeAmplitude | network.py:1069-1074 | the wipe amplitude `-1000 * abs(current)` is never positive and is zero only for a zero current |
| Rapid.PrepareImprint | network.py:1025-1048 | the wipe runs from the current time for `wipe_time`, the imprint follows for `sim_step`; states 1 and 0 get `+-1000 * imprint_current`, other samplers are untouched |
| Rapid.ImprintCoversRun | network.py:1032-1033 | the wipe starts at the current time and the imprint ends after `sim_step + wipe_time` |
| Rapid.ConnectAll | network.py:1011-1013 | one synapse of weight 0 per listed position, in order, with its delay; a missing delay raises IndexError |
| Rapid.RapidMachine.constructor | network.py:818-825 | time 0, steps of 30 ms, a wipe of 50 ms, no state set externally |
| Rapid.RapidMachine.CreateConnectivity | network.py:990-1015 | a given mask that is not N x N fails the assertion and changes nothing; otherwise the mask is stored and one synapse is made per position, in row-major order; the synapses the simulator reports are kept only when every delay was found |
| Rapid.RapidMachine.BinaryState | network.py:944-964 | the state last assigned while the clock has not moved, else the state read from the spikes |
| Rapid.RapidMachine.SetBinaryState | network.py:962-964 | assigning the state stores it and marks it set externally |
| Rapid.RapidMachine.SetImprintCurrent | network.py:1050-1059 | stores the imprint current |
| Rapid.RapidMachine.SetSimStep | network.py:919-924 | stores the step length |
| Rapid.RapidMachine.PrepareRun | network.py:873-896 | the weights are `1000 * weights_bio` at the mask's positions in row-major order, landing each on its own synapse when the simulator reports the synapses in that order; an imprint exactly when a state was set externally, equal to `_prepare_imprint` of that state |
| Rapid.RapidMachine.ProcessRun | network.py:886-891 | the clock is read from the simulator and an assigned state no longer stands |
| Rapid.RapidMachine.Run | network.py:863-871 | returns the new time, the simulator clock plus `sim_step + wipe_time`; the weights of `prepare_run`; the imprint is `_prepare_imprint` of the state before the run and ends exactly at the new time when the clocks agree; only the clock and the assigned state change |
| Rbm.Offsets | network.py:1210 | `np.r_[0, cumsum(units)]`: starts at 0 and grows by each layer's size |
| Rbm.OffsetsEndAtSum | network.py:1210-1213 | the last offset is the number of samplers |
| Rbm.OffsetsMonotone | network.py:1210 | offsets never decrease |
| Rbm.OffsetsFit | network.py:1210-1213 | every layer's sampler range lies inside the samplers |
| Rbm.Transpose | network.py:1236-1239 | the transpose swaps rows and columns |
| Rbm.FilledBlock | network.py:1268-1270 | `d * np.ones((2, r, c))` |
| Rbm.FilledLayers | network.py:1327-1332 | one `n_i x n_(i+1)` matrix of the scalar per pair of layers |
| Rbm.ScalarDelayBlocks | network.py:1266-1271 | one `(2, n_l, n_(l+1))` block of the delay per pair of layers |
| Rbm.CheckLayerDelays | network.py:1265-1276 | a scalar is broadcast to blocks, a list is kept, anything else fails the assertion |
| Rbm.ConvertBioToTheo | network.py:1243-1246 | unsupported: always `None` |
| Rbm.RbmMachine.constructor | network.py:1209-1213 | stores the layer sizes and offsets, with one sampler per unit |
| Rbm.RbmMachine.CheckWeightMatrix | network.py:1318-1342 | a non-list non-scalar fails the assertion; a scalar is broadcast per pair of layers; a list passes exactly when every entry has its layer's shape, which also accepts a list that is too short |
| Rbm.RbmMachine.BroadcastScalar | network.py:1320-1334 | the scalar branch fills one matrix per pair of layers |
| Rbm.RbmMachine.CheckWeightMatrixExact | network.py:1318-1342 | as the check, but a list must have one entry per pair of layers; whatever passes can be converted |
| Rbm.RbmMachine.SetWeightsTheo | network.py:189-203 | stores whatever the check as written accepts, a list shorter than the layers included; a scalar is broadcast; a failed check leaves the weights |
| Rbm.RbmMachine.SetWeightsTheoExact | network.py:189-203 | with the corrected check the stored list always holds one matrix per pair of layers |
| Rbm.RbmMachine.ConvertTheoToBio | network.py:1217-1241 | one block per pair of layers, each converting every column or row with the sampler the connection ends at; a short list raises IndexError |
| Rbm.RbmMachine.ConvertLayer | network.py:1225-1239 | both directions of one pair of layers |
| Rbm.RbmMachine.ConvertForward | network.py:1229-1233 | forward column j is converted by sampler j of the upper layer |
| Rbm.RbmMachine.ConvertBackward | network.py:1235-1239 | backward row j is converted by sampler j of the lower layer |
| Rbm.SliceConversions | network.py:1230-1231 | a slice of samplers keeps length-preserving conversions |
| Rbm.NewRbm | network.py:1204-1215 | no layer sizes, or fewer than two layers, fail the assertions; otherwise a valid machine on those layers |
| Rbm.ShortWeightListAccepted | network.py:1336-1342 | for three layers of two units, the one-matrix list passes the check as written but cannot be converted |
| Sources.GroupBySourceClass | sbs/db/sources.py:29-38 | an empty list raises IndexError; otherwise consecutive runs, each of instances of its first member's class, a new run starting at a non-instance |
| Sources.SourcesCreateConnect | sbs/db/sources.py:20-48 | one `create_connect` result per run in order; on an error, every earlier run succeeded and the error is the first failing run's: NotImplementedError for the base class, otherwise what its `create_connect` raised |
| Sources.ConcatAppendGroup | sbs/db/sources.py:37-38 | opening a new run keeps the runs' concatenation equal to the samplers seen |
| Sources.ConcatExtendLast | sbs/db/sources.py:34-36 | joining the last run keeps the runs' concatenation equal to the samplers seen |
| Sources.JoinLastRun | sbs/db/sources.py:33-36 | a sampler whose configuration is an instance of the last run's class joins that run, and the result is still a grouping of the samplers seen |
| Sources.OpenRun | sbs/db/sources.py:33-38 | any other sampler opens a new run, and the result is still a grouping |
| Sources.StoredWeight | sbs/db/sources.py:137-138 | the magnitude for a conductance-based population, the weight itself otherwise |
| Sources.ConnectOneToAll | sbs/db/sources.py:72-79 | always raises NotImplementedError |
| Sources.OneToOneRows | sbs/db/sources.py:131-138 | rows `(i, j, w_i)` for exactly the weights of the receptor type, ascending in i |
| Sources.OneToOneCount | sbs/db/sources.py:124-138 | the two lists of a sampler together have one row per weight |
| Sources.OneToOneCovers | sbs/db/sources.py:124-138 | every weight appears in the list of its sign |
| Sources.ListedStaysListed | sbs/db/sources.py:136-138 | a listed source stays listed as rows are appended |
| Sources.TypeRows | sbs/db/sources.py:131-139 | the loop builds the rows of one receptor type |
| Sources.ConnectOneToOne | sbs/db/sources.py:104-146 | an inhibitory and an excitatory list per sampler, as far as weights and sources go; a missing population raises IndexError |
| Sources.InsertSorted | sbs/db/sources.py:274 | adding a rate keeps the unique rates ascending |
| Sources.Unique | sbs/db/sources.py:274 | `np.unique`: the distinct rates, ascending |
| Sources.Inverse | sbs/db/sources.py:274 | `return_inverse`: each rate's index among the unique rates |
| Sources.AllRates | sbs/db/sources.py:253 | `np.hstack` of the samplers' rates |
| Sources.RateAt | sbs/db/sources.py:253 | rate j of sampler p sits at position `RateCount(p) + j` of the stacked rates |
| Sources.CountsAgree | sbs/db/sources.py:249-253 | with as many weights as rates per sampler, the weight counter and the rate position agree |
| Sources.SamplerRows | sbs/db/sources.py:296-302 | one sampler's rows of one type, each to its target neuron |
| Sources.SignPositions | sbs/db/sources.py:296-302 | the positions of the weights of one sign, ascending, each of that sign |
| Sources.SignPositionsComplete | sbs/db/sources.py:296-302 | every weight of the sign is among them |
| Sources.SamplerRowsAt | sbs/db/sources.py:296-302 | row k of a type is the row of the k-th weight of that sign: source `idx_to_src_id[cur_source]` at the counter's position, the target, the stored weight |
| Sources.SamplerRowsCount | sbs/db/sources.py:296-302 | the two types together list each weight once |
| Sources.SamplerRowsCovers | sbs/db/sources.py:296-302 | each weight's row is in the list its sign picks (`conn_type[weight > 0]`) |
| Sources.AllSamplerRowsCovers | sbs/db/sources.py:292-302 | over all samplers, each weight's row is in the list of its sign |
| Sources.RowOfWeightGrows | sbs/db/sources.py:292-302 | a row of the first samplers' weights stays one as more samplers follow |
| Sources.LastRowsOfWeight | sbs/db/sources.py:296-302 | the rows one sampler adds are rows of its weights of the list's sign |
| Sources.AllSamplerRowsSound | sbs/db/sources.py:292-302 | every listed row is the row of a weight of the list's sign |
| Sources.SamplerLoop | sbs/db/sources.py:296-302 | the inner loop: IndexError exactly when the counter runs past the rates; otherwise the rows of both types |
| Sources.WeightCountMonotone | sbs/db/sources.py:302 | the counter only grows |
| Sources.NestOptimizedConnections | sbs/db/sources.py:274-309 | the unique rates; IndexError exactly when there are more weights than rates; otherwise every sampler's rows, sampler by sampler |
| Sources.ConnectSamplers | sbs/db/sources.py:292-302 | the loop over the samplers: IndexError exactly when the counter would pass `idx_to_src_id`; otherwise each sampler's rows in sampler order |
| Sources.NestOptimizedPerPopulation | sbs/db/sources.py:311-328 | one pair of lists per population, targeting neuron 0, with the counter running on; IndexError exactly when the weights used pass the rates |
| Sources.ConnectPopulations | sbs/db/sources.py:312-320 | the loop over the populations: IndexError exactly when the counter would pass `idx_to_src_id`; otherwise population p's lists start at the counter where sampler p begins |
| Sources.CounterPairsOwnRate | sbs/db/sources.py:292-302 | with as many weights as rates per sampler, weight j of sampler i is fed by a source of that sampler's rate j |
| Sources.NestOptimizedCovers | sbs/db/sources.py:274-302 | with as many weights as rates per sampler, no IndexError arises, and weight j of sampler i is listed as excitatory when positive and inhibitory otherwise, fed by a source of that sampler's rate j |
| Sources.NestOptimizedCoversOne | sbs/db/sources.py:274-302 | one weight's row lies in the list of its sign and comes from a source of its own rate |
| Sources.NestOptimizedListed | sbs/db/sources.py:292-302 | with as many weights as rates, the counter stays inside the rates and the weight's row lies in the list of its sign |
| Sources.NestOptimizedRowRate | sbs/db/sources.py:274-302 | the source of a weight's row has that sampler's rate for that weight |
| Sources.NestOptimizedSound | sbs/db/sources.py:274-302 | with as many weights as rates per sampler, every row of either list is the row of a weight of that list's sign |
| Sources.TrainOf | sbs/db/sources.py:396 | `spike_times[spike_ids == i]`: the times tagged i, in order; a mask of the wrong length raises IndexError |
| Sources.Tagged | sbs/db/sources.py:396 | every selected time carries the id |
| Sources.TrainStore.constructor | sbs/db/sources.py:369 | no train is stored yet |
| Sources.TrainStore.GetIndex | sbs/db/sources.py:375-382 | the index of the equal stored train; a new train is appended and gets the next index; stored trains stay distinct |
| Sources.SamplerPlan | sbs/db/sources.py:395-397 | one planned row per weight of a sampler |
| Sources.PerSamplerConnList | sbs/db/sources.py:391-397 | IndexError exactly when a mask does not fit; otherwise one row per sampler and weight, whose source carries the planned train; sources are distinct and each feeds a row |
| Sources.AppendRealizes | sbs/db/sources.py:396-397 | appending the next planned row keeps the list in step with the plan |
| Sources.RealizesGrows | sbs/db/sources.py:381 | appending a train keeps earlier source indices |
| Sources.ListsSourceGrows | sbs/db/sources.py:375-382 | every stored train still feeds some row |
| Sources.SharedPlan | sbs/db/sources.py:387-390 | for each weight, one planned row per sampler |
| Sources.SharedConnList | sbs/db/sources.py:385-390 | IndexError exactly when the mask does not fit; otherwise, for each weight, every sampler gets a row from that weight's train; sources are distinct |
| Sources.SharedSourceIffSameTrain | sbs/db/sources.py:375-382 | two rows share a source exactly when their trains are equal |
| Sources.RegularRows | sbs/db/sources.py:419-455 | rows kept by sign, retargeted to 0 for a population of their own; non-negative weights when conductance-based |
| Sources.RegularSplit | sbs/db/sources.py:419-455 | the two lists split the rows addressed to a population; one population receives every row |
| Sources.RegularSplitEach | sbs/db/sources.py:442-455 | each population's two lists split the rows addressed to it |
| Sources.RegularCovers | sbs/db/sources.py:419-455 | every addressed row lands, with its source and stored weight, in the list its sign picks |
| Sources.ConnectSourcesRegular | sbs/db/sources.py:419-438 | one population: the two lists hold every row |
| Sources.ConnectSourcesPerPopulation | sbs/db/sources.py:440-462 | population j gets the rows for sampler j, split by sign |
| Sources.ZeroWeightSides | sbs/db/sources.py:426-431 | a zero weight is excitatory on the fixed-train path and inhibitory on the Poisson path |

## Left out

- Simulator calls are not modelled: population and projection creation, `nest.SetStatus`/`Connect`, `run_for`, source creation (`create_regular`, `create_sources_regular`, `_create_imprint_circuitry`). What they are handed is returned instead.
- `get_population_from_samplers` is not modelled. Callers pass the population shape (one population, or one per sampler with its `conductance_based` flag) as a parameter.
- `PoissonSourceConfiguration.create_connect` and `FixedSpikeTrainConfiguration.create_connect` are not modelled. Both only dispatch on the simulator and on the sampler container. The class-specific `create_connect` is a parameter of `Sources.SourcesCreateConnect`.
- A `sim.Population` passed as the samplers of `create_nest_optimized` is modelled as per-sampler specs that all equal the shared configuration.
- The compiled kernels (`cutils`) and the analytic distributions are not modelled. Neither are `dkl`, `sigmoid`, `gauss` or `erfm`, since they are floating-point statistics.
- `gather_calibration_data.py` and the `LIFsampler` internals are not part of this model.
- Pickling, `save`/`load`, hashing, random strings and the wall clock are not modelled. `get_eta` takes the elapsed time as a parameter.
- Plotting, logging and `dist_joint_sim`/`dist_*_theo` are not modelled (numerical statistics).
- `RapidBMSpikeImprint` is not modelled. Nor are the bias setters, `update_biases`, `calibration_data` and the RBM `update_weights`/`_create_connectivity`, which only talk to NEST.
- Reals are mathematical reals: no float rounding, NaN or infinity.
- Python set iteration order is unspecified. `Network.SelectedSamplerIdx` yields ascending order, and `Params.UniqueCombinations` yields order of first occurrence.
- `Spikes.SortByTime`: `np.argsort` is not stable, so only "sorted by time and a permutation" is promised. The insertion sort is one admissible result.
- Network.DistMarginalSim: requires a positive duration; the source divides by it.
- Machine.BoltzmannMachine.Create: requires length-preserving conversions, and NEST optimisation is a flag rather than a probe of the simulator module.
- Rapid.RapidMachine.PrepareRun: requires `create` to have run (the connectivity to exist); the source would fail on a missing attribute.
- Rapid.RapidMachine.Run: requires `create` to have run, as `PrepareRun` does.
- Rapid.LastSpiketimes: duplicate indices are resolved as last-write-wins, which numpy does not promise for fancy assignment.
- Rapid.RapidMachine.BinaryState: the dependency cache of `binary_state` is modelled as cleared by `process_run`, the point where `current_time` changes.
- Sources.NestOptimizedConnections: with no samplers at all the model returns empty lists where `np.hstack` of an empty generator raises ValueError; `sources_create_connect` never passes an empty run.
- Rapid.RapidMachine.PrepareRun: the order in which the simulator reports the synapses (`nest.GetConnections`) is a parameter of `CreateConnectivity`. NEST reports them in thread order, so with several threads it can differ from the row-major order of the weights. The weights then land on other synapses; the model states the weight-to-synapse pairing only for row-major order. A reported list of another length, on which `SetStatus` would fail, is not modelled.
- Sources.ConnectOneToOne: a `sim.Population` is modelled as a list of per-sampler populations; slicing past its end is not modelled.

## Findings

| source | as written | input that shows it | evidently intended | confidence | as-written member | corrected member |
|---|---|---|---|---|---|---|
| network.py:652-657 | `marginals` has one slot per selected sampler, but the loop writes slot `i`, the sampler index | `selected_sampler_idx = [1]` with two samplers: `marginals[1]` on a one-slot array raises IndexError | slot k holds the marginal of the k-th selected sampler | not executed | Network.DistMarginalSimAsWritten, Network.SecondSamplerAloneFails | Network.DistMarginalSim |
| network.py:1336-1342 | the list branch of `_check_weight_matrix` checks only the entries present, not their number | three layers of two units and the list `[zeros((2, 2))]`: the check passes; `convert_weights_theo_to_bio` then indexes `weights[1]` and raises IndexError | a list must hold exactly one matrix per pair of layers | not executed | Rbm.RbmMachine.CheckWeightMatrix, Rbm.RbmMachine.SetWeightsTheo, Rbm.ShortWeightListAccepted | Rbm.RbmMachine.CheckWeightMatrixExact, Rbm.RbmMachine.SetWeightsTheoExact |
