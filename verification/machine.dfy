/**
 * `BoltzmannMachineBase` as an object: the fields the constructor and the
 * setters of network.py assign, and the methods that read them.
 */
module Machine {
  import opened Wrappers
  import opened Matrices
  import opened Network
  import opened Thorough

  /**
   * The weights as last set: `weights_theo` and `weights_bio` depend on each
   * other, so setting one makes the other a conversion of it.
   */
  datatype WeightsSet = Theo(m: Matrix) | Bio(m: Matrix)

  function TheoToBioMaps(samplers: seq<Sampler>): (fs: seq<ColumnMap>)
    ensures |fs| == |samplers| && forall j :: 0 <= j < |samplers| ==> fs[j] == samplers[j].theoToBio
  {
    seq(|samplers|, j requires 0 <= j < |samplers| => samplers[j].theoToBio)
  }

  function BioToTheoMaps(samplers: seq<Sampler>): (fs: seq<ColumnMap>)
    ensures |fs| == |samplers| && forall j :: 0 <= j < |samplers| ==> fs[j] == samplers[j].bioToTheo
  {
    seq(|samplers|, j requires 0 <= j < |samplers| => samplers[j].bioToTheo)
  }

  /** The samplers' conversions return columns as long as the ones they are given. */
  ghost predicate ConversionsPreserveLength(samplers: seq<Sampler>) {
    PreservesLength(TheoToBioMaps(samplers)) && PreservesLength(BioToTheoMaps(samplers))
  }

  class BoltzmannMachine {
    var simName: string
    var numSamplers: nat
    var samplers: seq<Sampler>
    var weights: WeightsSet
    var delays: ArrayLike
    var saturatingSynapsesEnabled: bool
    var selectedSamplerIdx: seq<int>
    var tsoParams: Option<map<string, real>>
    var isCreated: bool

    /**
     * What every setter keeps: the stored weights are N x N with a zero
     * diagonal, the delays are never a scalar and the selection has no
     * repetitions.
     */
    ghost predicate Valid()
      reads this
    {
      && IsSquare(weights.m, numSamplers) && ZeroDiagonal(weights.m)
      && !delays.Scalar?
      && StrictlyIncreasing(selectedSamplerIdx)
      && ConversionsPreserveLength(samplers)
    }

    /**
     * The end of `__init__`, once the samplers are built: zero theoretical
     * weights, saturating synapses, a delay of 0.1 between every pair and
     * every sampler selected.
     */
    constructor (name: string, n: nat, samplers: seq<Sampler>)
      requires ConversionsPreserveLength(samplers)
      ensures Valid()
      ensures simName == SimName(name) && numSamplers == n && this.samplers == samplers
      ensures weights == Theo(Fill(n, n, 0.0))
      ensures delays == CheckDelays(n, Scalar(0.1))
      ensures saturatingSynapsesEnabled && tsoParams.None? && !isCreated
      ensures selectedSamplerIdx == Range(n)
    {
      simName := SimName(name);
      numSamplers := n;
      this.samplers := samplers;
      weights := Theo(Fill(n, n, 0.0));
      delays := CheckDelays(n, Scalar(0.1));
      saturatingSynapsesEnabled := true;
      selectedSamplerIdx := SelectedSamplerIdx(Range(n));
      tsoParams := None;
      isCreated := false;
      new;
      RangeSelection(n);
    }

    /** `weights_theo = w`: checked and stored; a failed check leaves the object as it was. */
    method SetWeightsTheo(w: ArrayLike) returns (r: Result<()>)
      requires Valid()
      modifies this
      ensures Valid()
      ensures r.Ok? <==> w.Scalar? || HasShape(w, numSamplers, numSamplers)
      ensures r.Ok? ==> weights.Theo? && forall i, j :: 0 <= i < numSamplers && 0 <= j < numSamplers ==>
        weights.m[i][j] == if i == j then 0.0 else if w.Scalar? then w.x else w.rows[i][j]
      ensures r.Err? ==> weights == old(weights)
      ensures simName == old(simName) && numSamplers == old(numSamplers) && samplers == old(samplers)
      ensures delays == old(delays) && saturatingSynapsesEnabled == old(saturatingSynapsesEnabled)
      ensures selectedSamplerIdx == old(selectedSamplerIdx) && tsoParams == old(tsoParams)
      ensures isCreated == old(isCreated)
    {
      var checked := CheckWeightMatrix(numSamplers, w);
      if checked.Err? {
        return Err(checked.error);
      }
      weights := Theo(checked.value);
      r := Ok(());
    }

    /** `weights_bio = w`: the same check, stored as biological weights. */
    method SetWeightsBio(w: ArrayLike) returns (r: Result<()>)
      requires Valid()
      modifies this
      ensures Valid()
      ensures r.Ok? <==> w.Scalar? || HasShape(w, numSamplers, numSamplers)
      ensures r.Ok? ==> weights.Bio? && forall i, j :: 0 <= i < numSamplers && 0 <= j < numSamplers ==>
        weights.m[i][j] == if i == j then 0.0 else if w.Scalar? then w.x else w.rows[i][j]
      ensures r.Err? ==> weights == old(weights)
      ensures simName == old(simName) && numSamplers == old(numSamplers) && samplers == old(samplers)
      ensures delays == old(delays) && saturatingSynapsesEnabled == old(saturatingSynapsesEnabled)
      ensures selectedSamplerIdx == old(selectedSamplerIdx) && tsoParams == old(tsoParams)
      ensures isCreated == old(isCreated)
    {
      var checked := CheckWeightMatrix(numSamplers, w);
      if checked.Err? {
        return Err(checked.error);
      }
      weights := Bio(checked.value);
      r := Ok(());
    }

    /** The `weights_bio` getter can convert: the weights are biological or no sampler lacks a column. */
    predicate BioReadable()
      reads this
    {
      weights.Bio? || |samplers| <= numSamplers
    }

    /** `m` is what the `weights_bio` getter yields for the stored weights. */
    ghost predicate IsWeightsBio(m: Matrix)
      reads this
    {
      if weights.Bio? then m == weights.m else ConvertedBy(TheoToBioMaps(samplers), weights.m, numSamplers, m)
    }

    /** `m` is what the `weights_theo` getter yields for the stored weights. */
    ghost predicate IsWeightsTheo(m: Matrix)
      reads this
    {
      if weights.Theo? then m == weights.m else ConvertedBy(BioToTheoMaps(samplers), weights.m, numSamplers, m)
    }

    /**
     * The `weights_bio` getter: the stored biological weights, or the
     * theoretical ones converted column by column with each target
     * sampler's `theo_to_bio`, columns without a sampler staying zero.
     */
    method WeightsBio() returns (r: Result<Matrix>)
      requires Valid()
      ensures weights.Bio? ==> r == Ok(weights.m)
      ensures r.Ok? <==> BioReadable()
      ensures r.Err? ==> r.error == IndexError
      ensures r.Ok? ==> IsSquare(r.value, numSamplers) && IsWeightsBio(r.value)
    {
      if weights.Bio? {
        return Ok(weights.m);
      }
      r := ConvertColumns(TheoToBioMaps(samplers), weights.m, numSamplers, numSamplers);
    }

    /** The `weights_theo` getter, converting with each target sampler's `bio_to_theo`. */
    method WeightsTheo() returns (r: Result<Matrix>)
      requires Valid()
      ensures weights.Theo? ==> r == Ok(weights.m)
      ensures r.Ok? <==> weights.Theo? || |samplers| <= numSamplers
      ensures r.Err? ==> r.error == IndexError
      ensures r.Ok? ==> IsSquare(r.value, numSamplers) && IsWeightsTheo(r.value)
    {
      if weights.Theo? {
        return Ok(weights.m);
      }
      r := ConvertColumns(BioToTheoMaps(samplers), weights.m, numSamplers, numSamplers);
    }

    /** `delays = d`: broadcast by `_check_delays`. */
    method SetDelays(d: ArrayLike)
      requires Valid()
      modifies this
      ensures Valid()
      ensures delays == CheckDelays(numSamplers, d)
      ensures simName == old(simName) && numSamplers == old(numSamplers) && samplers == old(samplers)
      ensures weights == old(weights) && saturatingSynapsesEnabled == old(saturatingSynapsesEnabled)
      ensures selectedSamplerIdx == old(selectedSamplerIdx) && tsoParams == old(tsoParams)
      ensures isCreated == old(isCreated)
    {
      delays := CheckDelays(numSamplers, d);
      CheckedDelaysNotScalar(numSamplers, d);
    }

    /** `selected_sampler_idx = idx`: stored without repetitions. */
    method SetSelectedSamplerIdx(idx: seq<int>)
      requires Valid()
      modifies this
      ensures Valid()
      ensures selectedSamplerIdx == SelectedSamplerIdx(idx)
      ensures simName == old(simName) && numSamplers == old(numSamplers) && samplers == old(samplers)
      ensures weights == old(weights) && delays == old(delays)
      ensures saturatingSynapsesEnabled == old(saturatingSynapsesEnabled) && tsoParams == old(tsoParams)
      ensures isCreated == old(isCreated)
    {
      selectedSamplerIdx := SelectedSamplerIdx(idx);
    }

    /** `tso_params = p`. */
    method SetTsoParams(p: map<string, real>)
      requires Valid()
      modifies this
      ensures Valid()
      ensures tsoParams == Some(p)
      ensures simName == old(simName) && numSamplers == old(numSamplers) && samplers == old(samplers)
      ensures weights == old(weights) && delays == old(delays)
      ensures saturatingSynapsesEnabled == old(saturatingSynapsesEnabled)
      ensures selectedSamplerIdx == old(selectedSamplerIdx) && isCreated == old(isCreated)
    {
      tsoParams := Some(p);
    }

    /** `saturating_synapses_enabled = b`. */
    method SetSaturatingSynapsesEnabled(b: bool)
      requires Valid()
      modifies this
      ensures Valid()
      ensures saturatingSynapsesEnabled == b
      ensures simName == old(simName) && numSamplers == old(numSamplers) && samplers == old(samplers)
      ensures weights == old(weights) && delays == old(delays) && tsoParams == old(tsoParams)
      ensures selectedSamplerIdx == old(selectedSamplerIdx) && isCreated == old(isCreated)
    {
      saturatingSynapsesEnabled := b;
    }

    /** Whether `tau_rec` is supplied per connection. */
    predicate WithTauRec()
      reads this
    {
      saturatingSynapsesEnabled && "tau_rec" !in TsoParams(tsoParams)
    }

    /**
     * `ThoroughBM.create`: the base class asserts that all samplers share
     * one model and stores the population, so the network counts as created
     * from then on, even when the connection part fails; that part reads
     * `weights_bio` (returned as `bio`) and builds one projection per sign
     * of weight from the current delays, synaptic time constants and TSO
     * parameters.
     */
    method Create(nestOptimization: bool) returns (r: Result<seq<Projection>>, ghost bio: Matrix)
      requires Valid()
      modifies this
      ensures Valid()
      ensures isCreated == (old(isCreated) || AllSamplersSameModel(samplers))
      ensures !AllSamplersSameModel(samplers) ==> r == Err(AssertionError)
      ensures AllSamplersSameModel(samplers) && BioReadable() ==> IsSquare(bio, numSamplers) && IsWeightsBio(bio)
      ensures r.Ok? <==>
        AllSamplersSameModel(samplers) && BioReadable() &&
        AllLookups(bio, numSamplers, delays, SynapseTaus(samplers), WithTauRec())
      ensures r.Err? ==> r.error == AssertionError || r.error == IndexError
      ensures r.Ok? ==>
        |r.value| == (if HasAny(bio, numSamplers, Exc) then 1 else 0) + (if HasAny(bio, numSamplers, Inh) then 1 else 0)
      ensures r.Ok? ==> forall k :: 0 <= k < |r.value| ==>
        var p := r.value[k];
        && HasAny(bio, numSamplers, p.wt)
        && (k == 0 <==> (p.wt == Exc || !HasAny(bio, numSamplers, Exc)))
        && p.columns == ColumnNames(saturatingSynapsesEnabled, "tau_rec" in TsoParams(tsoParams))
        && p.synapse == SynapseTypeFor(saturatingSynapsesEnabled, nestOptimization, TsoParams(tsoParams))
        && IsConnectionList(bio, numSamplers, p.wt, WeightFactor(p.wt, saturatingSynapsesEnabled, nestOptimization),
                            delays, SynapseTaus(samplers), WithTauRec(), p.connections)
        && (forall c :: c in p.connections ==> c.weight > 0.0)
        && (weights.Bio? ==> forall c :: c in p.connections ==> c.pre != c.post)
      ensures simName == old(simName) && numSamplers == old(numSamplers) && samplers == old(samplers)
      ensures weights == old(weights) && delays == old(delays) && selectedSamplerIdx == old(selectedSamplerIdx)
      ensures saturatingSynapsesEnabled == old(saturatingSynapsesEnabled) && tsoParams == old(tsoParams)
    {
      bio := weights.m;
      if !AllSamplersSameModel(samplers) {
        return Err(AssertionError), bio;
      }
      isCreated := true;
      var got := WeightsBio();
      if got.Err? {
        return Err(got.error), bio;
      }
      var w := got.value;
      bio := w;
      var taus := SynapseTaus(samplers);
      var tso := TsoParams(tsoParams);
      var ps := CreateProjections(w, numSamplers, delays, taus, saturatingSynapsesEnabled, nestOptimization, tso);
      if ps.Err? {
        return Err(ps.error), bio;
      }
      var withTauRec := WithTauRec();
      forall k | 0 <= k < |ps.value|
        ensures forall c :: c in ps.value[k].connections ==> c.weight > 0.0
        ensures weights.Bio? ==> forall c :: c in ps.value[k].connections ==> c.pre != c.post
      {
        var p := ps.value[k];
        var f := WeightFactor(p.wt, saturatingSynapsesEnabled, nestOptimization);
        ConnectionWeightsPositive(w, numSamplers, p.wt, saturatingSynapsesEnabled, nestOptimization,
                                  delays, taus, withTauRec, p.connections);
        ConnectionListShape(w, numSamplers, p.wt, f, delays, taus, withTauRec, p.connections);
      }
      r := Ok(ps.value);
    }
  }

  /** Each sampler's `(tau_syn_E, tau_syn_I)`, the `tau_rec` source per target. */
  function SynapseTaus(samplers: seq<Sampler>): (taus: seq<(real, real)>)
    ensures |taus| == |samplers|
    ensures forall j :: 0 <= j < |samplers| ==> taus[j] == (samplers[j].tauSynE, samplers[j].tauSynI)
  {
    seq(|samplers|, j requires 0 <= j < |samplers| => (samplers[j].tauSynE, samplers[j].tauSynI))
  }

  /**
   * `m` is `w` converted column by column: column `j` by `convs[j]`, and
   * columns past the last conversion left at zero (`np.zeros_like`).
   */
  ghost predicate ConvertedBy(convs: seq<ColumnMap>, w: Matrix, n: nat, m: Matrix) {
    && IsSquare(w, n) && IsSquare(m, n)
    && forall j :: 0 <= j < n ==>
         Column(m, j) == if j < |convs| then convs[j](Column(w, j)) else seq(n, _ => 0.0)
  }

  /** Selecting `range(n)` keeps every sampler, in order. */
  lemma {:induction false} RangeSelection(n: nat)
    ensures SelectedSamplerIdx(Range(n)) == Range(n)
  {
    if n > 0 {
      assert Range(n)[..n - 1] == Range(n - 1);
      RangeSelection(n - 1);
      InsertLargest(n - 1, Range(n - 1));
      assert Range(n - 1) + [n - 1] == Range(n);
    }
  }

  /** Inserting a value above every element appends it. */
  lemma {:induction false} InsertLargest(x: int, s: seq<int>)
    requires StrictlyIncreasing(s)
    requires forall k :: 0 <= k < |s| ==> s[k] < x
    ensures InsertDistinct(x, s) == s + [x]
  {
    if |s| > 0 {
      InsertLargest(x, s[1..]);
      assert [s[0]] + (s[1..] + [x]) == s + [x];
    }
  }
}
