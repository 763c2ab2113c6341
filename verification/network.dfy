/**
 * The bookkeeping of `BoltzmannMachineBase` in network.py: how the
 * constructor resolves neuron parameters into one sampler description per
 * sampler, how weight and delay arguments are broadcast and checked, how
 * weights are converted column by column with the target sampler's
 * conversion, calibration loading, the selected-sampler set and the
 * marginal distribution computed from spike counts.
 */
module Network {
  import opened Wrappers
  import opened Matrices

  /**
   * What a weight or delay argument can be before `np.array` is applied to
   * it: a scalar, a flat list, or a list of rows.
   */
  datatype ArrayLike = Scalar(x: real) | Vector(xs: seq<real>) | Nested(rows: Matrix)

  /** `np.array(a).shape == (r, c)`. */
  predicate HasShape(a: ArrayLike, r: nat, c: nat) {
    a.Nested? && NestedShapeIs(a.rows, r, c)
  }

  /** `sim_name`: the full simulator name always carries the "pyNN." prefix. */
  function SimName(name: string): (r: string)
    ensures |r| >= 5 && r[..5] == "pyNN."
    ensures |name| >= 5 && name[..5] == "pyNN." ==> r == name
  {
    if |name| >= 5 && name[..5] == "pyNN." then name else "pyNN." + name
  }

  /** Normalising a normalised name changes nothing. */
  lemma SimNameIdempotent(name: string)
    ensures SimName(SimName(name)) == SimName(name)
  {
  }

  // ---------------------------------------------------------------------
  // Constructor: resolution of neuron parameters into samplers
  // ---------------------------------------------------------------------

  /** A neuron parameter dictionary. */
  type NeuronParams = map<string, real>

  /** The `pynn_model` argument: absent, one model name, or a list of names. */
  datatype ModelArg = NoModel | OneModel(name: string) | ModelList(names: seq<string>)

  /** The `neuron_parameters` argument: absent, one dictionary, or a list of them. */
  datatype ParamsArg = NoParams | OneDict(dict: NeuronParams) | DictList(dicts: seq<NeuronParams>)

  /** The `neuron_parameters_db_ids` argument: absent, one id, or a list of ids. */
  datatype DbIdsArg = NoIds | OneId(id: int) | IdList(ids: seq<int>)

  /** How one `LIFsampler` is constructed. */
  datatype SamplerSpec = FromParams(model: string, params: NeuronParams) | FromDb(id: int)

  /** Python list indexing `s[i]`: negative indices count from the end. */
  function PyIndex<T>(s: seq<T>, i: int): (r: Result<T>)
    ensures r.Ok? <==> -|s| <= i < |s|
    ensures r.Err? ==> r.error == IndexError
    ensures 0 <= i < |s| ==> r == Ok(s[i])
    ensures -|s| <= i < 0 ==> r == Ok(s[|s| + i])
  {
    if 0 <= i < |s| then Ok(s[i])
    else if -|s| <= i < 0 then Ok(s[|s| + i])
    else Err(IndexError)
  }

  /**
   * The list comprehension over `neuron_index_to_parameters`: sampler k uses
   * `pynn_model[idx[k]]` and `neuron_parameters[idx[k]]`. The model list is
   * indexed with the parameter index as well.
   */
  function PickSamplers(models: seq<string>, dicts: seq<NeuronParams>, idx: seq<int>): (r: Result<seq<SamplerSpec>>)
    ensures r.Ok? <==> forall k :: 0 <= k < |idx| ==> PyIndex(models, idx[k]).Ok? && PyIndex(dicts, idx[k]).Ok?
    ensures r.Err? ==> r.error == IndexError
    ensures r.Ok? ==> |r.value| == |idx| && forall k :: 0 <= k < |idx| ==>
      r.value[k] == FromParams(PyIndex(models, idx[k]).value, PyIndex(dicts, idx[k]).value)
  {
    if |idx| == 0 then Ok([])
    else
      var last := idx[|idx| - 1];
      var init := PickSamplers(models, dicts, idx[..|idx| - 1]);
      var m := PyIndex(models, last);
      var d := PyIndex(dicts, last);
      if init.Err? then init
      else if m.Err? then Err(IndexError)
      else if d.Err? then Err(IndexError)
      else Ok(init.value + [FromParams(m.value, d.value)])
  }

  /** `range(n)`. */
  function Range(n: nat): (r: seq<int>)
    ensures |r| == n && forall k :: 0 <= k < n ==> r[k] == k
  {
    seq(n, k => k)
  }

  /** The model list: one name is repeated `num_samplers` times, a list is kept. */
  function ModelsOf(model: ModelArg, numSamplers: nat): (ms: seq<string>)
    ensures model.OneModel? ==> |ms| == numSamplers && forall k :: 0 <= k < numSamplers ==> ms[k] == model.name
    ensures model.ModelList? ==> ms == model.names
  {
    match model
    case NoModel => []
    case OneModel(name) => seq(numSamplers, _ => name)
    case ModelList(names) => names
  }

  /** `neuron_index_to_parameters` for a list of dictionaries: as given, or `range(num_samplers)`. */
  function ParamIndices(indexToParams: Option<seq<int>>, numSamplers: nat): (idx: seq<int>)
    ensures indexToParams.Some? ==> idx == indexToParams.value
    ensures indexToParams.None? ==> idx == Range(numSamplers)
  {
    if indexToParams.Some? then indexToParams.value else Range(numSamplers)
  }

  /**
   * The sampler list the constructor builds from its arguments, or the
   * exception it raises.
   */
  function ResolveSamplers(numSamplers: nat, model: ModelArg, params: ParamsArg,
                           indexToParams: Option<seq<int>>, dbIds: DbIdsArg): (r: Result<seq<SamplerSpec>>)
    ensures model.NoModel? && !params.NoParams? ==> r == Err(ValueError)
    ensures params.OneDict? && !model.NoModel? ==>
      var models := ModelsOf(model, numSamplers);
      && (r.Ok? <==> numSamplers == 0 || |models| > 0)
      && (r.Err? ==> r.error == IndexError)
      && (r.Ok? ==>
            |r.value| == numSamplers && forall k :: 0 <= k < numSamplers ==> r.value[k] == FromParams(models[0], params.dict))
    ensures params.DictList? && !model.NoModel? ==>
      var models, idx := ModelsOf(model, numSamplers), ParamIndices(indexToParams, numSamplers);
      && (r.Ok? <==> forall k :: 0 <= k < |idx| ==> PyIndex(models, idx[k]).Ok? && PyIndex(params.dicts, idx[k]).Ok?)
      && (r.Err? ==> r.error == IndexError)
      && (r.Ok? ==>
            |r.value| == |idx| && forall k :: 0 <= k < |idx| ==>
              r.value[k] == FromParams(PyIndex(models, idx[k]).value, PyIndex(params.dicts, idx[k]).value))
    ensures params.NoParams? && dbIds.NoIds? ==> r == Err(ConfigurationError)
    ensures params.NoParams? && dbIds.OneId? ==> r == Ok(seq(numSamplers, _ => FromDb(dbIds.id)))
    ensures params.NoParams? && dbIds.IdList? ==>
      r.Ok? && |r.value| == |dbIds.ids| && forall k :: 0 <= k < |dbIds.ids| ==> r.value[k] == FromDb(dbIds.ids[k])
  {
    if model.NoModel? && !params.NoParams? then Err(ValueError)
    else
      var models := ModelsOf(model, numSamplers);
      match params
      case OneDict(dict) => PickSamplers(models, [dict], seq(numSamplers, _ => 0))
      case DictList(dicts) => PickSamplers(models, dicts, ParamIndices(indexToParams, numSamplers))
      case NoParams =>
        match dbIds
        case OneId(id) => Ok(seq(numSamplers, _ => FromDb(id)))
        case IdList(ids) => Ok(seq(|ids|, k requires 0 <= k < |ids| => FromDb(ids[k])))
        case NoIds => Err(ConfigurationError)
  }

  /** A single parameter dictionary gives `num_samplers` samplers that all use it. */
  lemma SingleDictResolution(numSamplers: nat, name: string, dict: NeuronParams, indexToParams: Option<seq<int>>, dbIds: DbIdsArg)
    ensures var r := ResolveSamplers(numSamplers, OneModel(name), OneDict(dict), indexToParams, dbIds);
      r.Ok? && |r.value| == numSamplers && forall k :: 0 <= k < numSamplers ==> r.value[k] == FromParams(name, dict)
  {
    if numSamplers > 0 {
      assert PyIndex(seq(numSamplers, _ => name), 0) == Ok(name);
    }
  }

  /**
   * A list of dictionaries without an index map gives sampler i the
   * dictionary `neuron_parameters[i]`, provided the list covers every sampler.
   */
  lemma ListResolution(numSamplers: nat, name: string, dicts: seq<NeuronParams>, dbIds: DbIdsArg)
    requires |dicts| >= numSamplers
    ensures var r := ResolveSamplers(numSamplers, OneModel(name), DictList(dicts), None, dbIds);
      r.Ok? && |r.value| == numSamplers && forall k :: 0 <= k < numSamplers ==> r.value[k] == FromParams(name, dicts[k])
  {
  }

  /**
   * A shorter list of dictionaries with an index map gives sampler i the
   * dictionary `neuron_parameters[neuron_index_to_parameters[i]]`, as long
   * as every index stays within the dictionaries and, because the model
   * list is indexed the same way, within the samplers.
   */
  lemma IndexMapResolution(numSamplers: nat, name: string, dicts: seq<NeuronParams>, idx: seq<int>, dbIds: DbIdsArg)
    requires |idx| == numSamplers
    requires forall k :: 0 <= k < |idx| ==> 0 <= idx[k] < |dicts| && idx[k] < numSamplers
    ensures var r := ResolveSamplers(numSamplers, OneModel(name), DictList(dicts), Some(idx), dbIds);
      r.Ok? && |r.value| == numSamplers && forall i :: 0 <= i < numSamplers ==> r.value[i] == FromParams(name, dicts[idx[i]])
  {
  }

  /**
   * The model list is indexed with the parameter index: one model name
   * repeated `num_samplers` times and an index map pointing past the samplers
   * raise `IndexError` even when the parameter list is long enough.
   */
  lemma ModelIndexedByParameterIndex(name: string, dicts: seq<NeuronParams>, dbIds: DbIdsArg)
    requires |dicts| == 3
    ensures ResolveSamplers(2, OneModel(name), DictList(dicts), Some([2, 2]), dbIds) == Err(IndexError)
  {
    assert !PyIndex(seq(2, _ => name), 2).Ok?;
  }

  // ---------------------------------------------------------------------
  // Weight and delay arguments
  // ---------------------------------------------------------------------

  /** `np.array(rows)` for a rectangular list of rows, as a fresh array. */
  method ToArray(rows: Matrix, r: nat, c: nat) returns (a: array2<real>)
    requires IsRect(rows, r, c)
    ensures fresh(a)
    ensures a.Length0 == r && a.Length1 == c && Rows(a) == rows
  {
    a := new real[r, c];
    for i := 0 to r
      invariant forall p, q :: 0 <= p < i && 0 <= q < c ==> a[p, q] == rows[p][q]
    {
      for j := 0 to c
        invariant forall p, q :: 0 <= p < i && 0 <= q < c ==> a[p, q] == rows[p][q]
        invariant forall q :: 0 <= q < j ==> a[i, q] == rows[i][q]
      {
        a[i, j] := rows[i][j];
      }
    }
    ghost var m := Rows(a);
    forall p | 0 <= p < r ensures m[p] == rows[p] {
    }
  }

  /**
   * `_check_weight_matrix`: a scalar is broadcast to an N x N matrix, any
   * other shape than (N, N) fails the assertion, and the diagonal is set to
   * zero in place.
   */
  method CheckWeightMatrix(n: nat, w: ArrayLike) returns (r: Result<Matrix>)
    ensures r.Ok? <==> w.Scalar? || HasShape(w, n, n)
    ensures r.Err? ==> r.error == AssertionError
    ensures r.Ok? ==> IsSquare(r.value, n) && ZeroDiagonal(r.value)
    ensures r.Ok? && w.Scalar? ==> forall i, j :: 0 <= i < n && 0 <= j < n && i != j ==> r.value[i][j] == w.x
    ensures r.Ok? && w.Nested? ==> forall i, j :: 0 <= i < n && 0 <= j < n && i != j ==> r.value[i][j] == w.rows[i][j]
  {
    var a: array2<real>;
    if w.Scalar? {
      a := new real[n, n]((_, _) => w.x);
    } else if HasShape(w, n, n) {
      a := ToArray(w.rows, n, n);
    } else {
      return Err(AssertionError);
    }
    ghost var before := Rows(a);
    var filled := FillDiagonal(a, 0.0);
    r := Ok(Rows(a));
    assert forall i, j :: 0 <= i < n && 0 <= j < n && i != j ==> r.value[i][j] == before[i][j];
  }

  /** `_check_delays`: a scalar is broadcast to N x N; anything else is kept. */
  function CheckDelays(n: nat, d: ArrayLike): (r: ArrayLike)
    ensures d.Scalar? ==> r.Nested? && IsSquare(r.rows, n) && forall i, j :: 0 <= i < n && 0 <= j < n ==> r.rows[i][j] == d.x
    ensures !d.Scalar? ==> r == d
  {
    if d.Scalar? then Nested(Fill(n, n, d.x)) else d
  }

  /**
   * The delays a network stores are never a scalar, so the `global_delay`
   * branch of `ThoroughBM.create` is never taken.
   */
  lemma CheckedDelaysNotScalar(n: nat, d: ArrayLike)
    ensures !CheckDelays(n, d).Scalar?
  {
  }

  // ---------------------------------------------------------------------
  // Column-wise weight conversion
  // ---------------------------------------------------------------------

  /** A per-sampler unit conversion of one weight column (opaque to the model). */
  type ColumnMap = seq<real> -> seq<real>

  /** Every conversion returns a column as long as the one it was given. */
  ghost predicate PreservesLength(convs: seq<ColumnMap>) {
    forall j, col :: 0 <= j < |convs| ==> |convs[j](col)| == |col|
  }

  /**
   * `convert_weights_theo_to_bio` / `convert_weights_bio_to_theo`: starts from
   * `zeros_like(weights)` and writes column j with sampler j's conversion of
   * input column j; columns without a sampler stay zero, and more samplers
   * than columns raise `IndexError`.
   */
  method ConvertColumns(convs: seq<ColumnMap>, w: Matrix, rows: nat, cols: nat) returns (r: Result<Matrix>)
    requires IsRect(w, rows, cols) && PreservesLength(convs)
    ensures r.Ok? <==> |convs| <= cols
    ensures r.Err? ==> r.error == IndexError
    ensures r.Ok? ==> IsRect(r.value, rows, cols)
    ensures r.Ok? ==> forall j :: 0 <= j < cols ==>
      Column(r.value, j) == if j < |convs| then convs[j](Column(w, j)) else seq(rows, _ => 0.0)
  {
    if |convs| > cols {
      return Err(IndexError);
    }
    var conv := new real[rows, cols]((_, _) => 0.0);
    for j := 0 to |convs|
      invariant forall i, q :: 0 <= i < rows && j <= q < cols ==> conv[i, q] == 0.0
      invariant forall i, q :: 0 <= i < rows && 0 <= q < j ==> conv[i, q] == convs[q](Column(w, q))[i]
    {
      var col := convs[j](Column(w, j));
      for i := 0 to rows
        invariant forall p, q :: 0 <= p < rows && j < q < cols ==> conv[p, q] == 0.0
        invariant forall p, q :: 0 <= p < rows && 0 <= q < j ==> conv[p, q] == convs[q](Column(w, q))[p]
        invariant forall p :: 0 <= p < i ==> conv[p, j] == col[p]
        invariant forall p :: i <= p < rows ==> conv[p, j] == 0.0
      {
        conv[i, j] := col[i];
      }
    }
    var m := Rows(conv);
    forall j | 0 <= j < cols
      ensures Column(m, j) == if j < |convs| then convs[j](Column(w, j)) else seq(rows, _ => 0.0)
    {
    }
    r := Ok(m);
  }

  /**
   * A weight matrix with zero diagonal keeps a zero diagonal under
   * conversions that map zero entries to zero; the conversion itself does
   * not force the diagonal to zero.
   */
  lemma ConvertedDiagonal(convs: seq<ColumnMap>, w: Matrix, n: nat, m: Matrix)
    requires IsSquare(w, n) && ZeroDiagonal(w) && |convs| == n && PreservesLength(convs)
    requires forall j, col, i :: 0 <= j < n && 0 <= i < |col| && col[i] == 0.0 ==> convs[j](col)[i] == 0.0
    requires IsSquare(m, n) && forall j :: 0 <= j < n ==> Column(m, j) == convs[j](Column(w, j))
    ensures ZeroDiagonal(m)
  {
    forall j | 0 <= j < n ensures m[j][j] == 0.0 {
      assert Column(m, j)[j] == m[j][j];
      assert Column(w, j)[j] == 0.0;
    }
  }

  // ---------------------------------------------------------------------
  // Samplers as the network sees them
  // ---------------------------------------------------------------------

  /**
   * What the network reads from one `LIFsampler`: its model name, the id of
   * its parameter set, its refractory time, its synaptic time constants,
   * the two weight conversions, and whether loading a calibration with a
   * given id succeeds.
   */
  datatype Sampler = Sampler(
    pynnModel: string,
    paramsId: int,
    tauRefrac: real,
    tauSynE: real,
    tauSynI: real,
    theoToBio: ColumnMap,
    bioToTheo: ColumnMap,
    loadCalibration: Option<int> -> bool)

  /** `all_samplers_same_model`: every sampler has the model of the first. */
  function AllSamplersSameModel(samplers: seq<Sampler>): (b: bool)
    ensures b <==> forall i, j :: 0 <= i < |samplers| && 0 <= j < |samplers| ==>
      samplers[i].pynnModel == samplers[j].pynnModel
  {
    forall k :: 0 <= k < |samplers| ==> samplers[k].pynnModel == samplers[0].pynnModel
  }

  /** The calibration id sampler `i` is asked to load: `ids[i]`, or `None` past the end. */
  function CalibrationId(ids: seq<Option<int>>, i: nat): Option<int> {
    if i < |ids| then ids[i] else None
  }

  /** Whether sampler `i` fails to load its calibration. */
  predicate LoadFails(samplers: seq<Sampler>, ids: seq<Option<int>>, i: nat)
    requires i < |samplers|
  {
    !samplers[i].loadCalibration(CalibrationId(ids, i))
  }

  /**
   * `load_calibration(*ids)`: asks every sampler in turn to load its
   * calibration and collects the parameter ids of those that fail, in
   * sampler order; `pos` holds their sampler positions.
   */
  method LoadCalibration(samplers: seq<Sampler>, ids: seq<Option<int>>) returns (failed: seq<int>, ghost pos: seq<nat>)
    ensures |failed| == |pos|
    ensures forall a, b :: 0 <= a < b < |pos| ==> pos[a] < pos[b]
    ensures forall k :: 0 <= k < |pos| ==> pos[k] < |samplers| && failed[k] == samplers[pos[k]].paramsId
    ensures forall i :: 0 <= i < |samplers| ==> (i in pos <==> LoadFails(samplers, ids, i))
    ensures forall x :: x in failed <==>
      exists i :: 0 <= i < |samplers| && LoadFails(samplers, ids, i) && samplers[i].paramsId == x
  {
    failed, pos := [], [];
    for i := 0 to |samplers|
      invariant |failed| == |pos|
      invariant forall a, b :: 0 <= a < b < |pos| ==> pos[a] < pos[b]
      invariant forall k :: 0 <= k < |pos| ==> pos[k] < i && failed[k] == samplers[pos[k]].paramsId
      invariant forall e :: 0 <= e < i ==> (e in pos <==> LoadFails(samplers, ids, e))
      invariant forall e :: e in pos ==> e < i
      invariant forall x :: x in failed <==>
        exists e :: 0 <= e < i && LoadFails(samplers, ids, e) && samplers[e].paramsId == x
    {
      var id := if i < |ids| then ids[i] else None;
      if !samplers[i].loadCalibration(id) {
        failed := failed + [samplers[i].paramsId];
        pos := pos + [i];
      }
    }
  }

  /** `tso_params`: the TSO parameters, `{"U": 1, "u": 1}` unless set. */
  function TsoParams(set_: Option<map<string, real>>): (p: map<string, real>)
    ensures set_.None? ==> p.Keys == {"U", "u"} && p["U"] == 1.0 && p["u"] == 1.0
    ensures set_.Some? ==> p == set_.value
  {
    if set_.Some? then set_.value else map["U" := 1.0, "u" := 1.0]
  }

  // ---------------------------------------------------------------------
  // Selected samplers and the marginal distribution from spike data
  // ---------------------------------------------------------------------

  predicate StrictlyIncreasing(s: seq<int>) {
    forall a, b :: 0 <= a < b < |s| ==> s[a] < s[b]
  }

  /** A value below every element of a strictly increasing sequence may go in front. */
  lemma PrependIncreasing(a: int, s: seq<int>)
    requires StrictlyIncreasing(s)
    requires forall y :: y in s ==> a < y
    ensures StrictlyIncreasing([a] + s)
    ensures forall y :: y in [a] + s <==> y == a || y in s
  {
    var r := [a] + s;
    forall k, l | 0 <= k < l < |r| ensures r[k] < r[l] {
      assert r[l] == s[l - 1];
      if k > 0 {
        assert r[k] == s[k - 1];
      } else {
        assert s[l - 1] in s;
      }
    }
  }

  /** Inserts `x` into a strictly increasing sequence, unless it is there. */
  function InsertDistinct(x: int, s: seq<int>): (r: seq<int>)
    requires StrictlyIncreasing(s)
    ensures StrictlyIncreasing(r)
    ensures forall y :: y in r <==> y == x || y in s
  {
    if |s| == 0 then [x]
    else if x < s[0] then [x] + s
    else if x == s[0] then s
    else
      var rest := InsertDistinct(x, s[1..]);
      assert forall y :: y in s <==> y == s[0] || y in s[1..];
      assert forall y :: y in rest ==> s[0] < y;
      PrependIncreasing(s[0], rest);
      [s[0]] + rest
  }

  /**
   * `selected_sampler_idx`: `np.array(list(set(idx)))`. The set drops
   * repetitions; its elements come out in ascending order here.
   */
  function SelectedSamplerIdx(idx: seq<int>): (r: seq<int>)
    ensures StrictlyIncreasing(r)
    ensures forall y :: y in r <==> y in idx
  {
    if |idx| == 0 then []
    else InsertDistinct(idx[|idx| - 1], SelectedSamplerIdx(idx[..|idx| - 1]))
  }

  /** The marginal of one sampler: the fraction of time it spends refractory. */
  function Marginal(spikeCount: nat, tauRefrac: real, duration: real): (p: real)
    requires duration > 0.0
    ensures p * duration == (spikeCount as real) * tauRefrac
    ensures spikeCount == 0 ==> p == 0.0
    ensures tauRefrac >= 0.0 ==> p >= 0.0
  {
    (spikeCount as real) * tauRefrac / duration
  }

  /**
   * Where Python's `a[i]` lands in an array of length `n`: a negative index
   * counts from the end.
   */
  function PySlot(i: int, n: nat): (p: nat)
    requires -(n as int) <= i < n
    ensures p < n
  {
    if i < 0 then n + i else i
  }

  /** `PySlot` is where Python indexing reads: `s[i]` is the entry at `PySlot(i, |s|)`. */
  lemma PySlotIndexes<T>(s: seq<T>, i: int)
    requires -|s| <= i < |s|
    ensures PySlot(i, |s|) == i % |s|
    ensures PyIndex(s, i) == Ok(s[PySlot(i, |s|)])
  {
  }

  /**
   * The condition under which the as-written loop raises nothing: each
   * selected index is a valid Python index of the samplers and of the
   * marginals array, which has one slot per selected sampler.
   */
  predicate SlotsIndexable(selected: seq<int>, numSamplers: nat) {
    forall k :: 0 <= k < |selected| ==>
      -|selected| <= selected[k] < |selected| && -(numSamplers as int) <= selected[k] < numSamplers
  }

  /** The first `k` selected indices are valid Python indices of the samplers and of the marginals array. */
  predicate IndexableUpTo(selected: seq<int>, numSamplers: nat, k: nat) {
    k <= |selected| && forall e :: 0 <= e < k ==>
      -|selected| <= selected[e] < |selected| && -(numSamplers as int) <= selected[e] < numSamplers
  }

  /** No later selected index than the `k`-th, up to the `m`-th, writes the same slot. */
  predicate LastWriter(selected: seq<int>, k: nat, m: nat)
    requires k < m <= |selected| && forall e :: 0 <= e < m ==> -|selected| <= selected[e] < |selected|
  {
    forall e :: k < e < m ==> PySlot(selected[e], |selected|) != PySlot(selected[k], |selected|)
  }

  /**
   * The marginals array (before the division) after the first `k` turns of
   * the as-written loop: turn `e` writes `len(spikes) * tau_refrac` of
   * sampler `selected[e]` into slot `selected[e]`.
   */
  function RawMarginals(selected: seq<int>, spikeCounts: seq<nat>, tauRefracs: seq<real>, k: nat): (a: seq<real>)
    requires |spikeCounts| == |tauRefracs| && IndexableUpTo(selected, |spikeCounts|, k)
    ensures |a| == |selected|
  {
    if k == 0 then seq(|selected|, _ => 0.0)
    else
      var i := selected[k - 1];
      RawMarginals(selected, spikeCounts, tauRefracs, k - 1)[PySlot(i, |selected|) :=
        (PyIndex(spikeCounts, i).value as real) * PyIndex(tauRefracs, i).value]
  }

  /** Turn `k` writes its own slot and leaves the others. */
  lemma RawMarginalsStep(selected: seq<int>, spikeCounts: seq<nat>, tauRefracs: seq<real>, k: nat)
    requires |spikeCounts| == |tauRefracs| && IndexableUpTo(selected, |spikeCounts|, k + 1)
    ensures IndexableUpTo(selected, |spikeCounts|, k)
    ensures RawMarginals(selected, spikeCounts, tauRefracs, k + 1) ==
      RawMarginals(selected, spikeCounts, tauRefracs, k)[PySlot(selected[k], |selected|) :=
        (PyIndex(spikeCounts, selected[k]).value as real) * PyIndex(tauRefracs, selected[k]).value]
  {
  }

  /** A slot holds the value of the last turn that wrote it. */
  lemma {:induction false} RawMarginalsLastWrite(selected: seq<int>, spikeCounts: seq<nat>, tauRefracs: seq<real>, k: nat, e: nat)
    requires |spikeCounts| == |tauRefracs| && IndexableUpTo(selected, |spikeCounts|, k)
    requires e < k && LastWriter(selected, e, k)
    ensures RawMarginals(selected, spikeCounts, tauRefracs, k)[PySlot(selected[e], |selected|)] ==
      (PyIndex(spikeCounts, selected[e]).value as real) * PyIndex(tauRefracs, selected[e]).value
    decreases k
  {
    if e < k - 1 {
      assert PySlot(selected[k - 1], |selected|) != PySlot(selected[e], |selected|);
      RawMarginalsLastWrite(selected, spikeCounts, tauRefracs, k - 1, e);
    }
  }

  /** A slot no turn wrote holds 0. */
  lemma {:induction false} RawMarginalsUnwritten(selected: seq<int>, spikeCounts: seq<nat>, tauRefracs: seq<real>, k: nat, p: nat)
    requires |spikeCounts| == |tauRefracs| && IndexableUpTo(selected, |spikeCounts|, k)
    requires p < |selected| && forall e :: 0 <= e < k ==> PySlot(selected[e], |selected|) != p
    ensures RawMarginals(selected, spikeCounts, tauRefracs, k)[p] == 0.0
    decreases k
  {
    if k > 0 {
      RawMarginalsUnwritten(selected, spikeCounts, tauRefracs, k - 1, p);
    }
  }

  /**
   * `dist_marginal_sim` as written: `marginals` has one slot per selected
   * sampler, but sampler `i` writes slot `i`, so a selected index that is
   * not a valid index of that array raises `IndexError`. Indices are Python
   * indices: a negative one counts from the end, both in the samplers and
   * in the marginals array. A slot written twice keeps the later value; a
   * slot nobody writes keeps 0.
   */
  method DistMarginalSimAsWritten(selected: seq<int>, spikeCounts: seq<nat>, tauRefracs: seq<real>, duration: real)
    returns (r: Result<seq<real>>)
    requires duration > 0.0
    requires |spikeCounts| == |tauRefracs|
    ensures r.Ok? <==> SlotsIndexable(selected, |spikeCounts|)
    ensures r.Err? ==> r.error == IndexError
    ensures r.Ok? ==> |r.value| == |selected|
    ensures r.Ok? ==> forall k :: 0 <= k < |selected| && LastWriter(selected, k, |selected|) ==>
      r.value[PySlot(selected[k], |selected|)] ==
        Marginal(PyIndex(spikeCounts, selected[k]).value, PyIndex(tauRefracs, selected[k]).value, duration)
    ensures r.Ok? ==> forall p :: 0 <= p < |selected| && (forall k :: 0 <= k < |selected| ==> PySlot(selected[k], |selected|) != p) ==>
      r.value[p] == 0.0
  {
    var raw := MarginalsLoop(selected, spikeCounts, tauRefracs);
    if raw.Err? {
      return Err(raw.error);
    }
    var n := |selected|;
    var m := raw.value;
    var scaled := seq(n, p requires 0 <= p < n => m[p] / duration);
    forall k | 0 <= k < n && LastWriter(selected, k, n)
      ensures scaled[PySlot(selected[k], n)] ==
        Marginal(PyIndex(spikeCounts, selected[k]).value, PyIndex(tauRefracs, selected[k]).value, duration)
    {
      var slot := PySlot(selected[k], n);
      RawMarginalsLastWrite(selected, spikeCounts, tauRefracs, n, k);
      assert scaled[slot] == m[slot] / duration;
    }
    forall p | 0 <= p < n && (forall k :: 0 <= k < n ==> PySlot(selected[k], n) != p)
      ensures scaled[p] == 0.0
    {
      RawMarginalsUnwritten(selected, spikeCounts, tauRefracs, n, p);
      assert m[p] == 0.0;
      assert scaled[p] == 0.0 / duration;
    }
    r := Ok(scaled);
  }

  /** The loop of `dist_marginal_sim` as written, before the division by the duration. */
  method MarginalsLoop(selected: seq<int>, spikeCounts: seq<nat>, tauRefracs: seq<real>) returns (r: Result<seq<real>>)
    requires |spikeCounts| == |tauRefracs|
    ensures r.Ok? <==> SlotsIndexable(selected, |spikeCounts|)
    ensures r.Err? ==> r.error == IndexError
    ensures r.Ok? ==> IndexableUpTo(selected, |spikeCounts|, |selected|)
    ensures r.Ok? ==> r.value == RawMarginals(selected, spikeCounts, tauRefracs, |selected|)
  {
    var n: int := |selected|;
    var marginals := new real[n]((_) => 0.0);
    for k := 0 to n
      invariant IndexableUpTo(selected, |spikeCounts|, k)
      invariant marginals[..] == RawMarginals(selected, spikeCounts, tauRefracs, k)
    {
      var i := selected[k];
      if PyIndex(spikeCounts, i).Err? || PyIndex(tauRefracs, i).Err? || !(-n <= i < n) {
        return Err(IndexError);
      }
      ghost var before := marginals[..];
      assert before == RawMarginals(selected, spikeCounts, tauRefracs, k);
      var value := (PyIndex(spikeCounts, i).value as real) * PyIndex(tauRefracs, i).value;
      marginals[PySlot(i, n)] := value;
      assert marginals[..] == before[PySlot(i, n) := value];
      assert IndexableUpTo(selected, |spikeCounts|, k + 1);
      RawMarginalsStep(selected, spikeCounts, tauRefracs, k);
      assert value == (PyIndex(spikeCounts, selected[k]).value as real) * PyIndex(tauRefracs, selected[k]).value;
      assert PySlot(i, n) == PySlot(selected[k], |selected|);
      assert RawMarginals(selected, spikeCounts, tauRefracs, k + 1) == before[PySlot(i, n) := value];
    }
    assert SlotsIndexable(selected, |spikeCounts|);
    r := Ok(marginals[..]);
  }

  /**
   * A negative selection counts from the end: selecting `-1` of two
   * samplers raises nothing and fills the one slot from sampler 1.
   */
  lemma LastSamplerByNegativeIndex(spikeCounts: seq<nat>, tauRefracs: seq<real>)
    requires |spikeCounts| == |tauRefracs| == 2
    ensures SlotsIndexable([-1], 2)
    ensures PySlot(-1, 1) == 0 && LastWriter([-1], 0, 1)
    ensures PyIndex(spikeCounts, -1) == Ok(spikeCounts[1]) && PyIndex(tauRefracs, -1) == Ok(tauRefracs[1])
  {
  }

  /**
   * For a duplicate-free ascending selection of non-negative indices the
   * as-written loop only succeeds when the selection is `0, 1, ..., k-1`.
   */
  lemma {:induction false} SlotsIndexableOnlyForPrefix(selected: seq<nat>, numSamplers: nat)
    requires forall a, b :: 0 <= a < b < |selected| ==> selected[a] < selected[b]
    requires |selected| <= numSamplers
    ensures SlotsIndexable(selected, numSamplers) <==> forall k :: 0 <= k < |selected| ==> selected[k] == k
  {
    if SlotsIndexable(selected, numSamplers) {
      forall k | 0 <= k < |selected| ensures selected[k] == k {
        AscendingBounds(selected, k);
      }
    }
  }

  /** In an ascending sequence of naturals below its length, entry k is at least k and at most k. */
  lemma {:induction false} AscendingBounds(selected: seq<nat>, k: nat)
    requires forall a, b :: 0 <= a < b < |selected| ==> selected[a] < selected[b]
    requires forall e :: 0 <= e < |selected| ==> selected[e] < |selected|
    requires k < |selected|
    ensures selected[k] == k
  {
    AtLeastIndex(selected, k);
    AtMostIndex(selected, k);
  }

  lemma {:induction false} AtLeastIndex(s: seq<nat>, k: nat)
    requires forall a, b :: 0 <= a < b < |s| ==> s[a] < s[b]
    requires k < |s|
    ensures s[k] >= k
  {
    if k > 0 {
      AtLeastIndex(s, k - 1);
    }
  }

  lemma {:induction false} AtMostIndex(s: seq<nat>, k: nat)
    requires forall a, b :: 0 <= a < b < |s| ==> s[a] < s[b]
    requires forall e :: 0 <= e < |s| ==> s[e] < |s|
    requires k < |s|
    ensures s[k] <= k
    decreases |s| - k
  {
    if k < |s| - 1 {
      AtMostIndex(s, k + 1);
    }
  }

  /** Selecting only the second of two samplers makes the as-written loop fail. */
  lemma SecondSamplerAloneFails()
    ensures !SlotsIndexable([1], 2)
  {
    assert [1][0] == 1;
  }

  /**
   * `dist_marginal_sim` as evidently intended: slot k holds the marginal of
   * the k-th selected sampler, a negative index counting from the end of
   * the samplers; only a selected index without a sampler raises
   * `IndexError`.
   */
  method DistMarginalSim(selected: seq<int>, spikeCounts: seq<nat>, tauRefracs: seq<real>, duration: real)
    returns (r: Result<seq<real>>)
    requires duration > 0.0
    requires |spikeCounts| == |tauRefracs|
    ensures r.Ok? <==> forall k :: 0 <= k < |selected| ==> PyIndex(spikeCounts, selected[k]).Ok?
    ensures r.Err? ==> r.error == IndexError
    ensures r.Ok? ==> |r.value| == |selected| && forall k :: 0 <= k < |selected| ==>
      r.value[k] == Marginal(PyIndex(spikeCounts, selected[k]).value, PyIndex(tauRefracs, selected[k]).value, duration)
  {
    var marginals := new real[|selected|]((_) => 0.0);
    for k := 0 to |selected|
      invariant forall e :: 0 <= e < k ==> PyIndex(spikeCounts, selected[e]).Ok?
      invariant forall e :: 0 <= e < k ==>
        marginals[e] == (PyIndex(spikeCounts, selected[e]).value as real) * PyIndex(tauRefracs, selected[e]).value
    {
      var i := selected[k];
      if PyIndex(spikeCounts, i).Err? {
        return Err(IndexError);
      }
      marginals[k] := (PyIndex(spikeCounts, i).value as real) * PyIndex(tauRefracs, i).value;
    }
    r := Ok(seq(marginals.Length, p requires 0 <= p < marginals.Length reads marginals => marginals[p] / duration));
  }
}
