/**
 * `MixinRBM` of network.py: a Boltzmann machine arranged in layers, with
 * one weight block per pair of neighbouring layers instead of one N x N
 * matrix. Theoretical weights of layers `l` and `l+1` form an
 * `n_l x n_(l+1)` matrix; their biological counterpart holds two such
 * matrices, one per direction, because each direction is converted with
 * the parameters of the sampler it ends at.
 */
module Rbm {
  import opened Wrappers
  import opened Matrices
  import opened Network
  import opened Machine

  /** `sum(num_units_per_layer)`. */
  function Sum(units: seq<nat>): nat {
    if |units| == 0 then 0 else Sum(units[..|units| - 1]) + units[|units| - 1]
  }

  /** `np.r_[0, np.cumsum(num_units_per_layer)]`: where each layer's samplers begin. */
  function Offsets(units: seq<nat>): (o: seq<nat>)
    ensures |o| == |units| + 1 && o[0] == 0
    ensures forall l :: 0 <= l < |units| ==> o[l + 1] == o[l] + units[l]
  {
    if |units| == 0 then [0]
    else
      var p := Offsets(units[..|units| - 1]);
      p + [p[|p| - 1] + units[|units| - 1]]
  }

  /** The last offset is the number of samplers. */
  lemma {:induction false} OffsetsEndAtSum(units: seq<nat>)
    ensures Offsets(units)[|units|] == Sum(units)
  {
    if |units| > 0 {
      OffsetsEndAtSum(units[..|units| - 1]);
    }
  }

  /** Offsets never decrease, so the layers' sampler ranges follow each other. */
  lemma {:induction false} OffsetsMonotone(units: seq<nat>, a: nat, b: nat)
    requires a <= b <= |units|
    ensures Offsets(units)[a] <= Offsets(units)[b]
  {
    if a < b {
      OffsetsMonotone(units, a, b - 1);
    }
  }

  /** Every layer's sampler range lies inside the `n` samplers. */
  predicate LayersFit(units: seq<nat>, offsets: seq<nat>, n: nat)
    requires |offsets| == |units| + 1
  {
    forall l :: 0 <= l < |units| ==> offsets[l] + units[l] <= n
  }

  lemma OffsetsFit(units: seq<nat>)
    ensures LayersFit(units, Offsets(units), Sum(units))
  {
    OffsetsEndAtSum(units);
    forall l | 0 <= l < |units| ensures Offsets(units)[l] + units[l] <= Sum(units) {
      OffsetsMonotone(units, l + 1, |units|);
    }
  }

  /** `m` transposed. */
  function Transpose(m: Matrix, r: nat, c: nat): (t: Matrix)
    requires IsRect(m, r, c)
    ensures IsRect(t, c, r)
    ensures forall i, j :: 0 <= i < r && 0 <= j < c ==> t[j][i] == m[i][j]
  {
    seq(c, j requires 0 <= j < c => seq(r, i requires 0 <= i < r => m[i][j]))
  }

  /** The rows of an array given as a list of rows. */
  function RowsOf(a: ArrayLike): (m: Matrix)
    ensures a.Nested? ==> m == a.rows
  {
    if a.Nested? then a.rows else []
  }

  /** A weight argument: a scalar, a list of per-layer arrays, or anything else. */
  datatype LayerWeightsArg = ScalarWeight(x: real) | WeightList(ws: seq<ArrayLike>) | OtherWeight

  /** A delay argument: a scalar, a list of per-layer blocks (taken as is), or anything else. */
  datatype LayerDelaysArg = ScalarDelay(d: real) | DelayList(ds: seq<seq<Matrix>>) | OtherDelay

  /** The `(2, n_l, n_(l+1))` biological block of one pair of layers. */
  datatype BioBlock = BioBlock(forward: Matrix, backward: Matrix)

  /** List entry `i` has the shape `(n_i, n_(i+1))`. */
  predicate EntryShaped(units: seq<nat>, ws: seq<ArrayLike>, i: nat)
    requires i < |ws|
  {
    i + 1 < |units| && HasShape(ws[i], units[i], units[i + 1])
  }

  /** What the list branch of `_check_weight_matrix` accepts: every entry it enumerates has its layer's shape. */
  predicate WeightListAccepted(units: seq<nat>, ws: seq<ArrayLike>) {
    forall i :: 0 <= i < |ws| ==> EntryShaped(units, ws, i)
  }

  /** `(2, n_l, n_(l+1))` blocks holding `d` everywhere, one per pair of layers. */
  function ScalarDelayBlocks(units: seq<nat>, d: real): (ds: seq<seq<Matrix>>)
    requires |units| > 1
    ensures |ds| == |units| - 1
    ensures forall l :: 0 <= l < |ds| ==> ds[l] == FilledBlock(units[l], units[l + 1], d)
  {
    seq(|units| - 1, l requires 0 <= l < |units| - 1 => FilledBlock(units[l], units[l + 1], d))
  }

  /** `d * np.ones((2, r, c))`. */
  function FilledBlock(r: nat, c: nat, d: real): (b: seq<Matrix>)
    ensures |b| == 2 && IsRect(b[0], r, c) && IsRect(b[1], r, c)
    ensures forall k, i, j :: 0 <= k < 2 && 0 <= i < r && 0 <= j < c ==> b[k][i][j] == d
  {
    [Fill(r, c, d), Fill(r, c, d)]
  }

  /** One `n_l x n_(l+1)` matrix of `x` per pair of layers. */
  function FilledLayers(units: seq<nat>, x: real): (ws: seq<Matrix>)
    requires |units| > 1
    ensures |ws| == |units| - 1
    ensures forall l :: 0 <= l < |units| - 1 ==> ws[l] == Fill(units[l], units[l + 1], x)
  {
    seq(|units| - 1, l requires 0 <= l < |units| - 1 => Fill(units[l], units[l + 1], x))
  }

  lemma FilledLayersShaped(units: seq<nat>, x: real)
    requires |units| > 1
    ensures forall l :: 0 <= l < |units| - 1 ==> IsRect(FilledLayers(units, x)[l], units[l], units[l + 1])
  {
  }

  /**
   * `_check_delays`: a scalar becomes one `(2, n_l, n_(l+1))` block per
   * pair of layers filled with it; a list is kept as it is; anything else
   * fails the assertion.
   */
  function CheckLayerDelays(units: seq<nat>, d: LayerDelaysArg): (r: Result<seq<seq<Matrix>>>)
    requires |units| > 1
    ensures r.Err? <==> d.OtherDelay?
    ensures r.Err? ==> r.error == AssertionError
    ensures d.DelayList? ==> r == Ok(d.ds)
    ensures d.ScalarDelay? ==> (r.Ok? && |r.value| == |units| - 1 &&
      forall l :: 0 <= l < |units| - 1 ==> (|r.value[l]| == 2 &&
        IsRect(r.value[l][0], units[l], units[l + 1]) && IsRect(r.value[l][1], units[l], units[l + 1]) &&
        forall k, i, j :: 0 <= k < 2 && 0 <= i < units[l] && 0 <= j < units[l + 1] ==> r.value[l][k][i][j] == d.d))
  {
    match d
    case ScalarDelay(x) => Ok(ScalarDelayBlocks(units, x))
    case DelayList(ds) => Ok(ds)
    case OtherDelay => Err(AssertionError)
  }

  /** `convert_weights_bio_to_theo`: unsupported for RBMs, it logs and returns `None`. */
  function ConvertBioToTheo(weights: seq<BioBlock>): (r: Option<seq<Matrix>>)
    ensures r.None?
  {
    None
  }

  /** `MixinRBM`: the layer layout on top of the samplers. */
  class RbmMachine {
    var unitsPerLayer: seq<nat>
    var layerIdOffset: seq<nat>
    var numLayers: nat
    var numSamplers: nat
    var samplers: seq<Sampler>
    /** `weights_theo`: one `n_l x n_(l+1)` matrix per pair of layers. */
    var weightsTheo: seq<Matrix>

    ghost predicate Valid()
      reads this
    {
      && |unitsPerLayer| > 1
      && numLayers == |unitsPerLayer|
      && layerIdOffset == Offsets(unitsPerLayer)
      && numSamplers == Sum(unitsPerLayer) == |samplers|
      && ConversionsPreserveLength(samplers)
      && LayersFit(unitsPerLayer, layerIdOffset, numSamplers)
      && |weightsTheo| <= numLayers - 1
      && forall l :: 0 <= l < |weightsTheo| ==> IsRect(weightsTheo[l], unitsPerLayer[l], unitsPerLayer[l + 1])
    }

    /**
     * `__init__` once its assertions hold: the layer sizes, their offsets,
     * and one sampler per unit; the weights start at zero.
     */
    constructor (units: seq<nat>, samplers: seq<Sampler>)
      requires |units| > 1 && |samplers| == Sum(units) && ConversionsPreserveLength(samplers)
      ensures Valid()
      ensures unitsPerLayer == units && numLayers == |units| && this.samplers == samplers
      ensures layerIdOffset == Offsets(units) && numSamplers == Sum(units)
    {
      unitsPerLayer := units;
      layerIdOffset := Offsets(units);
      numLayers := |units|;
      numSamplers := Sum(units);
      this.samplers := samplers;
      weightsTheo := FilledLayers(units, 0.0);
      new;
      OffsetsFit(units);
      FilledLayersShaped(units, 0.0);
    }

    /**
     * `_check_weight_matrix` as written: a non-list must be a scalar and is
     * broadcast to every pair of layers; a list is checked entry by entry
     * against `(n_i, n_(i+1))` and returned. A list longer than the layers
     * runs out of layer sizes; a shorter one is accepted.
     */
    method CheckWeightMatrix(w: LayerWeightsArg) returns (r: Result<seq<Matrix>>)
      requires Valid()
      ensures w.OtherWeight? ==> r == Err(AssertionError)
      ensures w.ScalarWeight? ==> r == Ok(FilledLayers(unitsPerLayer, w.x))
      ensures w.WeightList? ==> (r.Ok? <==> WeightListAccepted(unitsPerLayer, w.ws))
      ensures w.WeightList? && r.Ok? ==> (|r.value| == |w.ws| &&
        forall i :: 0 <= i < |w.ws| ==> w.ws[i].Nested? && r.value[i] == w.ws[i].rows)
      ensures w.WeightList? && r.Err? ==>
        (r.error == IndexError <==> |w.ws| >= numLayers && forall i :: 0 <= i < numLayers - 1 ==> EntryShaped(unitsPerLayer, w.ws, i))
      ensures r.Err? ==> r.error == IndexError || r.error == AssertionError
    {
      if w.OtherWeight? {
        return Err(AssertionError);
      }
      if w.ScalarWeight? {
        var all := BroadcastScalar(w.x);
        return Ok(all);
      }
      var ws := w.ws;
      for i := 0 to |ws|
        invariant forall l :: 0 <= l < i ==> EntryShaped(unitsPerLayer, ws, l)
      {
        if i + 1 >= |unitsPerLayer| {
          assert !EntryShaped(unitsPerLayer, ws, i);
          return Err(IndexError);
        }
        if !HasShape(ws[i], unitsPerLayer[i], unitsPerLayer[i + 1]) {
          assert !EntryShaped(unitsPerLayer, ws, i);
          return Err(AssertionError);
        }
      }
      forall i | 0 <= i < |ws| ensures ws[i].Nested? {
        assert EntryShaped(unitsPerLayer, ws, i);
      }
      r := Ok(seq(|ws|, i requires 0 <= i < |ws| => RowsOf(ws[i])));
    }

    /** The scalar branch: one `n_i x n_(i+1)` matrix filled with `x` per pair of layers. */
    method BroadcastScalar(x: real) returns (all: seq<Matrix>)
      requires numLayers == |unitsPerLayer| > 1
      ensures all == FilledLayers(unitsPerLayer, x)
    {
      all := [];
      for i := 0 to numLayers - 1
        invariant |all| == i && forall l :: 0 <= l < i ==> all[l] == Fill(unitsPerLayer[l], unitsPerLayer[l + 1], x)
      {
        all := all + [Fill(unitsPerLayer[i], unitsPerLayer[i + 1], x)];
      }
    }

    /**
     * The check with the length test it evidently intends: a list is
     * accepted only with exactly one entry per pair of layers, so whatever
     * it accepts can be converted.
     */
    method CheckWeightMatrixExact(w: LayerWeightsArg) returns (r: Result<seq<Matrix>>)
      requires Valid()
      ensures w.OtherWeight? ==> r == Err(AssertionError)
      ensures w.ScalarWeight? ==> r == Ok(FilledLayers(unitsPerLayer, w.x))
      ensures w.WeightList? ==> (r.Ok? <==> |w.ws| == numLayers - 1 && WeightListAccepted(unitsPerLayer, w.ws))
      ensures w.WeightList? && r.Ok? ==> (|r.value| == |w.ws| &&
        forall i :: 0 <= i < |w.ws| ==> w.ws[i].Nested? && r.value[i] == w.ws[i].rows)
      ensures r.Err? ==> r.error == IndexError || r.error == AssertionError
      ensures r.Ok? ==> Convertible(r.value)
    {
      if w.WeightList? && |w.ws| != numLayers - 1 {
        return Err(if |w.ws| >= numLayers then IndexError else AssertionError);
      }
      r := CheckWeightMatrix(w);
      if r.Ok? && w.WeightList? {
        forall l | 0 <= l < numLayers - 1
          ensures IsRect(r.value[l], unitsPerLayer[l], unitsPerLayer[l + 1])
        {
          assert EntryShaped(unitsPerLayer, w.ws, l);
        }
      }
    }

    /** The list has a correctly shaped matrix for every pair of layers. */
    ghost predicate Convertible(weights: seq<Matrix>)
      reads this
      requires Valid()
    {
      |weights| >= numLayers - 1 &&
      forall l :: 0 <= l < numLayers - 1 ==> IsRect(weights[l], unitsPerLayer[l], unitsPerLayer[l + 1])
    }

    /** Entry `i` of a weight list has the shape of the `i`-th pair of layers. */
    ghost predicate LayerShaped(weights: seq<Matrix>, i: nat)
      reads this
      requires i < |weights|
    {
      i + 1 < |unitsPerLayer| && IsRect(weights[i], unitsPerLayer[i], unitsPerLayer[i + 1])
    }

    /**
     * `weights_theo = w` as written: whatever `_check_weight_matrix`
     * accepts is stored, a list shorter than the layers included; a failed
     * check leaves the weights.
     */
    method SetWeightsTheo(w: LayerWeightsArg) returns (r: Result<()>)
      requires Valid()
      modifies this
      ensures Valid()
      ensures r.Ok? <==> w.ScalarWeight? || (w.WeightList? && WeightListAccepted(unitsPerLayer, w.ws))
      ensures r.Ok? && w.ScalarWeight? ==> weightsTheo == FilledLayers(unitsPerLayer, w.x)
      ensures r.Ok? && w.WeightList? ==>
        |weightsTheo| == |w.ws| && forall l :: 0 <= l < |w.ws| ==> w.ws[l].Nested? && weightsTheo[l] == w.ws[l].rows
      ensures r.Err? ==> weightsTheo == old(weightsTheo)
      ensures unitsPerLayer == old(unitsPerLayer) && layerIdOffset == old(layerIdOffset) && samplers == old(samplers)
      ensures numLayers == old(numLayers) && numSamplers == old(numSamplers)
    {
      var checked := CheckWeightMatrix(w);
      if checked.Err? {
        return Err(checked.error);
      }
      if w.WeightList? {
        if |w.ws| > 0 {
          assert EntryShaped(unitsPerLayer, w.ws, |w.ws| - 1);
        }
        forall l | 0 <= l < |w.ws| ensures LayerShaped(checked.value, l) {
          assert EntryShaped(unitsPerLayer, w.ws, l);
        }
      } else {
        FilledLayersShaped(unitsPerLayer, w.x);
      }
      forall l | 0 <= l < |checked.value|
        ensures IsRect(checked.value[l], unitsPerLayer[l], unitsPerLayer[l + 1])
      {
        if w.WeightList? {
          assert LayerShaped(checked.value, l);
        }
      }
      weightsTheo := checked.value;
      r := Ok(());
    }

    /** `weights_theo = w` with the exact check: the stored list always has one matrix per pair of layers. */
    method SetWeightsTheoExact(w: LayerWeightsArg) returns (r: Result<()>)
      requires Valid()
      modifies this
      ensures Valid()
      ensures r.Ok? <==> w.ScalarWeight? || (w.WeightList? && |w.ws| == numLayers - 1 && WeightListAccepted(unitsPerLayer, w.ws))
      ensures r.Ok? ==> |weightsTheo| == numLayers - 1
      ensures r.Ok? && w.ScalarWeight? ==> forall l :: 0 <= l < numLayers - 1 ==>
        weightsTheo[l] == Fill(unitsPerLayer[l], unitsPerLayer[l + 1], w.x)
      ensures r.Ok? && w.WeightList? ==> forall l :: 0 <= l < numLayers - 1 ==> w.ws[l].Nested? && weightsTheo[l] == w.ws[l].rows
      ensures r.Err? ==> weightsTheo == old(weightsTheo)
      ensures unitsPerLayer == old(unitsPerLayer) && layerIdOffset == old(layerIdOffset) && samplers == old(samplers)
      ensures numLayers == old(numLayers) && numSamplers == old(numSamplers)
    {
      var checked := CheckWeightMatrixExact(w);
      if checked.Err? {
        return Err(checked.error);
      }
      assert |checked.value| == numLayers - 1 && Convertible(checked.value);
      weightsTheo := checked.value;
      r := Ok(());
    }

    /**
     * Block `l` is the conversion of `theo`: column `j` of the forward
     * matrix is converted by sampler `j` of layer `l+1`, row `j` of the
     * backward matrix by sampler `j` of layer `l`; in both directions the
     * sampler the connection ends at.
     */
    ghost predicate IsLayerBlock(l: nat, theo: Matrix, b: BioBlock)
      reads this
      requires Valid() && l < numLayers - 1
    {
      var ni, nj := unitsPerLayer[l], unitsPerLayer[l + 1];
      && IsRect(b.forward, ni, nj) && IsRect(b.backward, ni, nj) && IsRect(theo, ni, nj)
      && (forall j :: 0 <= j < nj ==>
            Column(b.forward, j) == samplers[layerIdOffset[l + 1] + j].theoToBio(Column(theo, j)))
      && (forall j :: 0 <= j < ni ==> b.backward[j] == samplers[layerIdOffset[l] + j].theoToBio(theo[j]))
    }

    /**
     * `convert_weights_theo_to_bio`: one `(2, n_l, n_(l+1))` block per pair
     * of layers; a list shorter than the layers runs out with `IndexError`.
     */
    method ConvertTheoToBio(weights: seq<Matrix>) returns (r: Result<seq<BioBlock>>)
      requires Valid()
      requires forall i :: 0 <= i < |weights| ==> LayerShaped(weights, i)
      ensures r.Ok? <==> |weights| == numLayers - 1
      ensures r.Err? ==> r.error == IndexError
      ensures r.Ok? ==> (|r.value| == numLayers - 1 &&
        forall l :: 0 <= l < numLayers - 1 ==> IsLayerBlock(l, weights[l], r.value[l]))
    {
      if |weights| > 0 {
        assert LayerShaped(weights, |weights| - 1);
      }
      var blocks: seq<BioBlock> := [];
      for l := 0 to numLayers - 1
        invariant |blocks| == l && l <= |weights|
        invariant forall q :: 0 <= q < l ==> IsLayerBlock(q, weights[q], blocks[q])
      {
        if l >= |weights| {
          return Err(IndexError);
        }
        assert LayerShaped(weights, l);
        var b := ConvertLayer(l, weights[l]);
        blocks := blocks + [b];
      }
      r := Ok(blocks);
    }

    /** The two directions of one pair of layers. */
    method ConvertLayer(l: nat, theo: Matrix) returns (b: BioBlock)
      requires Valid() && l < numLayers - 1 && IsRect(theo, unitsPerLayer[l], unitsPerLayer[l + 1])
      ensures IsLayerBlock(l, theo, b)
    {
      var fwd := ConvertForward(l, theo);
      var bwd := ConvertBackward(l, theo);
      b := BioBlock(fwd, bwd);
    }

    /** `l_weights[0, :, j]`: column `j` converted by sampler `j` of layer `l+1`. */
    method ConvertForward(l: nat, theo: Matrix) returns (fwd: Matrix)
      requires Valid() && l < numLayers - 1 && IsRect(theo, unitsPerLayer[l], unitsPerLayer[l + 1])
      ensures IsRect(fwd, unitsPerLayer[l], unitsPerLayer[l + 1])
      ensures forall j :: 0 <= j < unitsPerLayer[l + 1] ==>
        Column(fwd, j) == samplers[layerIdOffset[l + 1] + j].theoToBio(Column(theo, j))
    {
      var ni, nj := unitsPerLayer[l], unitsPerLayer[l + 1];
      var a, b := layerIdOffset[l + 1], layerIdOffset[l + 2];
      assert b == a + nj && b <= |samplers|;
      SliceConversions(samplers, a, b);
      var convs := TheoToBioMaps(samplers[a..b]);
      var r := ConvertColumns(convs, theo, ni, nj);
      fwd := r.value;
      forall j | 0 <= j < nj
        ensures Column(fwd, j) == samplers[a + j].theoToBio(Column(theo, j))
      {
        assert samplers[a..b][j] == samplers[a + j];
        assert convs[j] == samplers[a + j].theoToBio;
      }
    }

    /** `l_weights[1, j, :]`: row `j` converted by sampler `j` of layer `l`. */
    method ConvertBackward(l: nat, theo: Matrix) returns (bwd: Matrix)
      requires Valid() && l < numLayers - 1 && IsRect(theo, unitsPerLayer[l], unitsPerLayer[l + 1])
      ensures IsRect(bwd, unitsPerLayer[l], unitsPerLayer[l + 1])
      ensures forall j :: 0 <= j < unitsPerLayer[l] ==> bwd[j] == samplers[layerIdOffset[l] + j].theoToBio(theo[j])
    {
      var ni, nj := unitsPerLayer[l], unitsPerLayer[l + 1];
      var a, b := layerIdOffset[l], layerIdOffset[l + 1];
      assert b == a + ni && b <= |samplers|;
      SliceConversions(samplers, a, b);
      var t := Transpose(theo, ni, nj);
      var r := ConvertColumns(TheoToBioMaps(samplers[a..b]), t, nj, ni);
      bwd := Transpose(r.value, nj, ni);
      forall j | 0 <= j < ni
        ensures bwd[j] == samplers[a + j].theoToBio(theo[j])
      {
        assert Column(t, j) == theo[j];
        assert bwd[j] == Column(r.value, j);
      }
    }
  }

  /** A slice of samplers keeps their conversions' length preservation. */
  lemma SliceConversions(samplers: seq<Sampler>, a: nat, b: nat)
    requires a <= b <= |samplers| && ConversionsPreserveLength(samplers)
    ensures PreservesLength(TheoToBioMaps(samplers[a..b]))
  {
    forall j, col | 0 <= j < b - a
      ensures |TheoToBioMaps(samplers[a..b])[j](col)| == |col|
    {
      assert TheoToBioMaps(samplers[a..b])[j] == TheoToBioMaps(samplers)[a + j];
    }
  }

  /**
   * `__init__`: no layer sizes, or fewer than two layers, fail the
   * assertions; otherwise the machine is built on one sampler per unit.
   */
  method NewRbm(units: Option<seq<nat>>, samplers: seq<Sampler>) returns (r: Result<RbmMachine>)
    requires units.Some? ==> |samplers| == Sum(units.value)
    requires ConversionsPreserveLength(samplers)
    ensures r.Ok? <==> units.Some? && |units.value| > 1
    ensures r.Err? ==> r.error == AssertionError
    ensures r.Ok? ==> (fresh(r.value) && r.value.Valid() && r.value.unitsPerLayer == units.value &&
      r.value.numSamplers == Sum(units.value))
  {
    if units.None? || |units.value| <= 1 {
      return Err(AssertionError);
    }
    var m := new RbmMachine(units.value, samplers);
    r := Ok(m);
  }

  /**
   * The short list `[w]` for three layers of two units passes the check as
   * written, but its conversion fails: the second pair of layers has no
   * matrix.
   */
  lemma ShortWeightListAccepted()
    ensures var w := Nested(Fill(2, 2, 0.0));
      WeightListAccepted([2, 2, 2], [w]) && 1 < |[2, 2, 2]| - 1
  {
    var w := Nested(Fill(2, 2, 0.0));
    assert EntryShaped([2, 2, 2], [w], 0);
  }
}
