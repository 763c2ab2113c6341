/**
 * The discrete bookkeeping of `RapidBMBase` and `RapidBMCurrentImprint`
 * (network.py): the connectivity mask and the synapses made from it, the
 * weights written back to those synapses before every run, the spike times
 * re-indexed from the last-spike detector, the binary state read from them,
 * and the wipe and imprint windows set up before a run. The simulator is
 * outside the model: what it is asked to do is returned as values.
 */
module Rapid {
  import opened Wrappers
  import opened Matrices
  import opened Network
  import opened Thorough

  /** Positions in row `i` where `row` holds, in column order. */
  function RowWhere(i: nat, row: seq<bool>): (ps: seq<(nat, nat)>)
    ensures forall k :: 0 <= k < |ps| ==> ps[k].0 == i && ps[k].1 < |row| && row[ps[k].1]
    ensures forall k, l :: 0 <= k < l < |ps| ==> ps[k].1 < ps[l].1
  {
    if |row| == 0 then []
    else RowWhere(i, row[..|row| - 1]) + (if row[|row| - 1] then [(i, |row| - 1)] else [])
  }

  /** `(p, q)` comes before `(i, j)` in row-major order. */
  predicate RowMajorLess(a: (nat, nat), b: (nat, nat)) {
    a.0 < b.0 || (a.0 == b.0 && a.1 < b.1)
  }

  /**
   * `np.where(mask)` read as a list of pairs: the positions where the mask
   * holds, in row-major order.
   */
  function Where(mask: seq<seq<bool>>): (ps: seq<(nat, nat)>)
    ensures forall k :: 0 <= k < |ps| ==>
      ps[k].0 < |mask| && ps[k].1 < |mask[ps[k].0]| && mask[ps[k].0][ps[k].1]
    ensures forall k, l :: 0 <= k < l < |ps| ==> RowMajorLess(ps[k], ps[l])
  {
    if |mask| == 0 then []
    else Where(mask[..|mask| - 1]) + RowWhere(|mask| - 1, mask[|mask| - 1])
  }

  /** Every position of row `i` where the mask holds is listed. */
  lemma {:induction false} RowWhereComplete(i: nat, row: seq<bool>, j: nat)
    requires j < |row| && row[j]
    ensures (i, j) in RowWhere(i, row)
  {
    var init := row[..|row| - 1];
    if j < |row| - 1 {
      RowWhereComplete(i, init, j);
    } else {
      assert RowWhere(i, row)[|RowWhere(i, row)| - 1] == (i, j);
    }
  }

  /** Every position where the mask holds is listed by `Where`. */
  lemma {:induction false} WhereComplete(mask: seq<seq<bool>>, i: nat, j: nat)
    requires i < |mask| && j < |mask[i]| && mask[i][j]
    ensures (i, j) in Where(mask)
  {
    var init := mask[..|mask| - 1];
    if i < |mask| - 1 {
      assert init[i] == mask[i];
      WhereComplete(init, i, j);
    } else {
      RowWhereComplete(i, mask[i], j);
    }
  }

  /** `weights_bio != 0.`: the default connectivity. */
  function NonzeroMask(w: Matrix): (mask: seq<seq<bool>>)
    ensures |mask| == |w| && forall i :: 0 <= i < |w| ==> |mask[i]| == |w[i]|
    ensures forall i, j :: 0 <= i < |w| && 0 <= j < |w[i]| ==> (mask[i][j] <==> w[i][j] != 0.0)
  {
    seq(|w|, i requires 0 <= i < |w| => seq(|w[i]|, j requires 0 <= j < |w[i]| => w[i][j] != 0.0))
  }

  /** `mask` is an `n x n` boolean array. */
  predicate MaskShape(mask: seq<seq<bool>>, n: nat) {
    |mask| == n && forall i :: 0 <= i < n ==> |mask[i]| == n
  }

  /** One synapse made by `nest.Connect(gids[src], gids[tgt], 0., delay)`. */
  datatype Synapse = Synapse(src: nat, tgt: nat, weight: real, delay: real)

  /** Every listed position has a delay. */
  predicate DelaysDefined(delays: ArrayLike, ps: seq<(nat, nat)>) {
    forall k :: 0 <= k < |ps| ==> DelayAt(delays, ps[k].0, ps[k].1).Ok?
  }

  /**
   * `(weights_bio * 1000.)[connectivity_matrix]`: the weights in NEST units
   * at the connected positions, in the order of `Where`.
   */
  function MaskedWeights(w: Matrix, mask: seq<seq<bool>>, n: nat): (ws: seq<real>)
    requires IsSquare(w, n) && MaskShape(mask, n)
    ensures |ws| == |Where(mask)|
    ensures forall k :: 0 <= k < |ws| ==> ws[k] == 1000.0 * w[Where(mask)[k].0][Where(mask)[k].1]
  {
    var ps := Where(mask);
    seq(|ps|, k requires 0 <= k < |ps| => 1000.0 * w[ps[k].0][ps[k].1])
  }

  /**
   * With the default mask, exactly the nonzero weights are written, each to
   * the synapse of its own position, and none of them is zero.
   */
  lemma DefaultMaskWeights(w: Matrix, n: nat)
    requires IsSquare(w, n)
    ensures forall k :: 0 <= k < |MaskedWeights(w, NonzeroMask(w), n)| ==>
      MaskedWeights(w, NonzeroMask(w), n)[k] != 0.0
    ensures forall i, j :: 0 <= i < n && 0 <= j < n && w[i][j] != 0.0 ==> (i, j) in Where(NonzeroMask(w))
  {
    forall i, j | 0 <= i < n && 0 <= j < n && w[i][j] != 0.0
      ensures (i, j) in Where(NonzeroMask(w))
    {
      WhereComplete(NonzeroMask(w), i, j);
    }
  }

  /** The last value written to slot `s` by the first `m` scattered writes. */
  function LastWrite(idx: seq<int>, vals: seq<real>, n: nat, s: nat, m: nat): (v: real)
    requires m <= |idx| == |vals|
    decreases m
  {
    if m == 0 then 0.0
    else if Wrap(idx[m - 1], n) == s then vals[m - 1]
    else LastWrite(idx, vals, n, s, m - 1)
  }

  /** numpy's reading of a possibly negative index into `n` slots. */
  function Wrap(i: int, n: nat): int {
    if i < 0 then i + n else i
  }

  predicate InSlots(i: int, n: nat) {
    -(n as int) <= i < n
  }

  /** The detector's indices shifted by the first sampler's gid. */
  function Shifted(indices: seq<int>, gid0: int): (r: seq<int>)
    ensures |r| == |indices| && forall k :: 0 <= k < |r| ==> r[k] == indices[k] - gid0
  {
    seq(|indices|, k requires 0 <= k < |indices| => indices[k] - gid0)
  }

  /**
   * `last_spiketimes`: when the detector reports fewer (or more) times than
   * there are samplers, its indices are shifted by the first gid and the
   * times scattered into a zero array; otherwise the times are returned as
   * they come.
   */
  method LastSpiketimes(indices: seq<int>, times: seq<real>, popSize: nat, gid0: int)
    returns (r: Result<seq<real>>)
    requires |indices| == |times|
    ensures |times| == popSize ==> r == Ok(times)
    ensures |times| != popSize ==>
      (r.Ok? <==> forall k :: 0 <= k < |indices| ==> InSlots(indices[k] - gid0, popSize))
    ensures r.Err? ==> r.error == IndexError
    ensures |times| != popSize && r.Ok? ==> (|r.value| == popSize &&
      forall s :: 0 <= s < popSize ==> r.value[s] == LastWrite(Shifted(indices, gid0), times, popSize, s, |times|))
  {
    if |times| == popSize {
      return Ok(times);
    }
    var idx := Shifted(indices, gid0);
    var a := new real[popSize](_ => 0.0);
    for k := 0 to |idx|
      invariant forall l :: 0 <= l < k ==> InSlots(idx[l], popSize)
      invariant forall s :: 0 <= s < popSize ==> a[s] == LastWrite(idx, times, popSize, s, k)
    {
      if !InSlots(idx[k], popSize) {
        return Err(IndexError);
      }
      a[Wrap(idx[k], popSize)] := times[k];
    }
    r := Ok(a[..]);
  }

  /**
   * When the shifted indices are distinct slots, every reported sampler gets
   * its own time and every other sampler keeps 0.
   */
  lemma {:induction false} DistinctScatter(idx: seq<int>, vals: seq<real>, n: nat, m: nat)
    requires m <= |idx| == |vals|
    requires forall k :: 0 <= k < m ==> 0 <= idx[k] < n
    requires forall k, l :: 0 <= k < l < m ==> idx[k] != idx[l]
    ensures forall k :: 0 <= k < m ==> LastWrite(idx, vals, n, idx[k], m) == vals[k]
    ensures forall s: nat :: s < n && (forall k :: 0 <= k < m ==> idx[k] != s) ==>
      LastWrite(idx, vals, n, s, m) == 0.0
  {
    if m > 0 {
      DistinctScatter(idx, vals, n, m - 1);
    }
  }

  /**
   * `binary_state` read from the spikes: a sampler is on while it is
   * refractory, that is when its last spike lies less than `tau_refrac` in
   * the past.
   */
  function StateFromSpikes(currentTime: real, last: seq<real>, tauRefracs: seq<real>): (state: seq<int>)
    requires |last| == |tauRefracs|
    ensures |state| == |last|
    ensures forall i :: 0 <= i < |state| ==> state[i] == 0 || state[i] == 1
    ensures forall i :: 0 <= i < |state| ==> (state[i] == 1 <==> currentTime - last[i] < tauRefracs[i])
  {
    seq(|last|, i requires 0 <= i < |last| => if currentTime - last[i] < tauRefracs[i] then 1 else 0)
  }

  /**
   * A sampler the detector did not report keeps time 0 and so reads as on
   * exactly while the clock is below its refractory time.
   */
  lemma UnreportedSamplerState(indices: seq<int>, times: seq<real>, popSize: nat, gid0: int,
                               currentTime: real, tauRefracs: seq<real>, s: nat)
    requires |indices| == |times| && |tauRefracs| == popSize && s < popSize
    requires forall k :: 0 <= k < |indices| ==> 0 <= indices[k] - gid0 < popSize
    requires forall k, l :: 0 <= k < l < |indices| ==> indices[k] != indices[l]
    requires forall k :: 0 <= k < |indices| ==> indices[k] - gid0 != s
    ensures var last := seq(popSize, t requires 0 <= t < popSize =>
                          LastWrite(Shifted(indices, gid0), times, popSize, t, |times|));
      StateFromSpikes(currentTime, last, tauRefracs)[s] == (if currentTime < tauRefracs[s] then 1 else 0)
  {
    var idx := Shifted(indices, gid0);
    DistinctScatter(idx, times, popSize, |times|);
    assert LastWrite(idx, times, popSize, s, |times|) == 0.0;
  }

  /** The window of one dc generator. */
  datatype Window = Window(start: real, stop: real)

  /**
   * What `_prepare_imprint` sets: the wipe generator's window, the imprint
   * window, and for each sampler's imprint generator the amplitude it is
   * given, or `None` when its state is neither 0 nor 1 and it is not touched.
   */
  datatype ImprintPlan = ImprintPlan(wipe: Window, imprint: Window, amplitudes: seq<Option<real>>)

  /** `2 * state - 1` for a state of 0 or 1. */
  function Sign(state: int): (s: real)
    requires state == 0 || state == 1
    ensures s == (2 * state - 1) as real
  {
    if state == 1 then 1.0 else -1.0
  }

  /** `imprint_current`: 10 nA unless set. */
  function ImprintCurrent(set_: Option<real>): (c: real)
    ensures set_.None? ==> c == 10.0
    ensures set_.Some? ==> c == set_.value
  {
    if set_.Some? then set_.value else 10.0
  }

  /** The wipe generator's amplitude in pA for a `wipe_current` in nA: always inhibiting. */
  function WipeAmplitude(current: real): (a: real)
    ensures a <= 0.0
    ensures a == -1000.0 * current || a == 1000.0 * current
    ensures a == 0.0 <==> current == 0.0
  {
    -1000.0 * (if current < 0.0 then -current else current)
  }

  /** The imprint generator's amplitude in pA for a state of 0 or 1. */
  function Amplitude(current: real, state: int): (a: real)
    requires state == 0 || state == 1
    ensures state == 1 ==> a == 1000.0 * current
    ensures state == 0 ==> a == -1000.0 * current
  {
    if state == 1 then
      assert Sign(state) == 1.0;
      current * 1000.0 * Sign(state)
    else
      assert Sign(state) == -1.0;
      current * 1000.0 * Sign(state)
  }

  /**
   * `_prepare_imprint`: the wipe runs from the current time for `wipe_time`,
   * the imprint follows for `sim_step`; samplers in state 1 get a positive,
   * samplers in state 0 a negative current of the same size.
   */
  function PrepareImprint(currentTime: real, wipeTime: real, simStep: real,
                          state: seq<int>, imprintCurrent: real): (p: ImprintPlan)
    ensures p.wipe == Window(currentTime, currentTime + wipeTime)
    ensures p.imprint == Window(p.wipe.stop, p.wipe.stop + simStep)
    ensures |p.amplitudes| == |state|
    ensures forall i :: 0 <= i < |state| ==> (p.amplitudes[i].Some? <==> state[i] == 0 || state[i] == 1)
    ensures forall i :: 0 <= i < |state| && state[i] == 1 ==> p.amplitudes[i] == Some(1000.0 * imprintCurrent)
    ensures forall i :: 0 <= i < |state| && state[i] == 0 ==> p.amplitudes[i] == Some(-1000.0 * imprintCurrent)
  {
    var start := currentTime + wipeTime;
    ImprintPlan(Window(currentTime, start), Window(start, start + simStep),
      seq(|state|, i requires 0 <= i < |state| =>
        if state[i] == 0 || state[i] == 1 then Some(Amplitude(imprintCurrent, state[i]))
        else None))
  }

  /**
   * The two windows tile the run that follows: the wipe starts at the
   * current time and the imprint stops when a run of `sim_step + wipe_time`
   * ends.
   */
  lemma ImprintCoversRun(currentTime: real, wipeTime: real, simStep: real, state: seq<int>, imprintCurrent: real)
    ensures var p := PrepareImprint(currentTime, wipeTime, simStep, state, imprintCurrent);
      p.wipe.start == currentTime && p.imprint.start == p.wipe.stop &&
      p.imprint.stop == currentTime + (simStep + wipeTime)
  {
  }

  /** `syns` holds one synapse of weight 0 per pair of `ps`, in order, with its delay. */
  predicate IsSynapseList(delays: ArrayLike, ps: seq<(nat, nat)>, syns: seq<Synapse>) {
    && DelaysDefined(delays, ps)
    && |syns| == |ps|
    && forall k :: 0 <= k < |ps| ==>
         syns[k] == Synapse(ps[k].0, ps[k].1, 0.0, DelayAt(delays, ps[k].0, ps[k].1).value)
  }

  /** The loop over `zip(*np.where(mask))` calling `nest.Connect` once per pair. */
  method ConnectAll(delays: ArrayLike, ps: seq<(nat, nat)>) returns (r: Result<seq<Synapse>>)
    ensures r.Ok? <==> DelaysDefined(delays, ps)
    ensures r.Err? ==> r.error == IndexError
    ensures r.Ok? ==> IsSynapseList(delays, ps, r.value)
  {
    var made: seq<Synapse> := [];
    for k := 0 to |ps|
      invariant IsSynapseList(delays, ps[..k], made)
    {
      var d := DelayAt(delays, ps[k].0, ps[k].1);
      if d.Err? {
        return Err(d.error);
      }
      made := made + [Synapse(ps[k].0, ps[k].1, 0.0, d.value)];
      assert ps[..k + 1][k] == ps[k];
    }
    assert ps[..|ps|] == ps;
    r := Ok(made);
  }

  /** `RapidBMCurrentImprint`: the fields its runs read and update. */
  class RapidMachine {
    var numSamplers: nat
    var currentTime: real
    var simStep: real
    var wipeTime: real
    var binaryStateSetExternally: bool
    /** A state assigned to `binary_state`, until the clock moves on. */
    var externalState: Option<seq<int>>
    var imprintCurrentSet: Option<real>
    /** `connectivity_matrix`, once `create` has run. */
    var connectivity: Option<seq<seq<bool>>>
    /**
     * `_nest_connections`: the synapses as the simulator reports them after
     * `_create_connectivity`, in the simulator's order.
     */
    var connections: seq<(nat, nat)>

    ghost predicate Valid()
      reads this
    {
      connectivity.Some? ==> MaskShape(connectivity.value, numSamplers)
    }

    /** `__init__`: time 0, steps of 30 ms after a 50 ms wipe, no external state. */
    constructor (n: nat)
      ensures Valid()
      ensures numSamplers == n && currentTime == 0.0 && simStep == 30.0 && wipeTime == 50.0
      ensures !binaryStateSetExternally && externalState.None? && imprintCurrentSet.None?
      ensures connectivity.None? && connections == []
    {
      numSamplers := n;
      currentTime := 0.0;
      simStep := 30.0;
      wipeTime := 50.0;
      binaryStateSetExternally := false;
      externalState := None;
      imprintCurrentSet := None;
      connectivity := None;
      connections := [];
    }

    /**
     * `_create_connectivity`: the mask is `weights_bio != 0` unless one is
     * given, which must be `N x N`; one synapse of weight 0 per position of
     * the mask, in row-major order, with the delay of its position. Once
     * every synapse is made, the synapses the simulator reports (`reported`)
     * are kept; a missing delay raises before that.
     */
    method CreateConnectivity(weightsBio: Matrix, delays: ArrayLike, given: Option<seq<seq<bool>>>,
                              reported: seq<(nat, nat)>)
      returns (r: Result<seq<Synapse>>)
      requires Valid() && IsSquare(weightsBio, numSamplers)
      modifies this
      ensures Valid()
      ensures given.Some? && !MaskShape(given.value, numSamplers) ==> r == Err(AssertionError) && unchanged(this)
      ensures given.None? || MaskShape(given.value, numSamplers) ==>
        var mask := if given.Some? then given.value else NonzeroMask(weightsBio);
        && connectivity == Some(mask)
        && (r.Ok? <==> DelaysDefined(delays, Where(mask)))
        && (r.Err? ==> r.error == IndexError)
        && (r.Ok? ==> IsSynapseList(delays, Where(mask), r.value) && connections == reported)
        && (r.Err? ==> connections == old(connections))
      ensures numSamplers == old(numSamplers) && currentTime == old(currentTime) && simStep == old(simStep)
      ensures wipeTime == old(wipeTime) && binaryStateSetExternally == old(binaryStateSetExternally)
      ensures externalState == old(externalState) && imprintCurrentSet == old(imprintCurrentSet)
    {
      var mask: seq<seq<bool>>;
      if given.None? {
        mask := NonzeroMask(weightsBio);
      } else {
        if !MaskShape(given.value, numSamplers) {
          return Err(AssertionError);
        }
        mask := given.value;
      }
      connectivity := Some(mask);
      r := ConnectAll(delays, Where(mask));
      if r.Ok? {
        connections := reported;
      }
    }

    /**
     * `binary_state`: the state last assigned while the clock has not moved,
     * otherwise the state read from the last spike times.
     */
    function BinaryState(last: seq<real>, tauRefracs: seq<real>): (state: seq<int>)
      reads this
      requires |last| == |tauRefracs|
      ensures externalState.Some? ==> state == externalState.value
      ensures externalState.None? ==> (|state| == |last| &&
        forall i :: 0 <= i < |last| ==> (state[i] == 1 <==> currentTime - last[i] < tauRefracs[i]))
    {
      if externalState.Some? then externalState.value else StateFromSpikes(currentTime, last, tauRefracs)
    }

    /** Assigning `binary_state` marks it set externally and stores it. */
    method SetBinaryState(state: seq<int>)
      requires Valid()
      modifies this
      ensures Valid()
      ensures binaryStateSetExternally && externalState == Some(state)
      ensures numSamplers == old(numSamplers) && currentTime == old(currentTime) && simStep == old(simStep)
      ensures wipeTime == old(wipeTime) && imprintCurrentSet == old(imprintCurrentSet)
      ensures connectivity == old(connectivity) && connections == old(connections)
    {
      binaryStateSetExternally := true;
      externalState := Some(state);
    }

    /** Assigning `imprint_current`. */
    method SetImprintCurrent(c: real)
      requires Valid()
      modifies this
      ensures Valid()
      ensures imprintCurrentSet == Some(c)
      ensures numSamplers == old(numSamplers) && currentTime == old(currentTime) && simStep == old(simStep)
      ensures wipeTime == old(wipeTime) && binaryStateSetExternally == old(binaryStateSetExternally)
      ensures externalState == old(externalState)
      ensures connectivity == old(connectivity) && connections == old(connections)
    {
      imprintCurrentSet := Some(c);
    }

    /** Assigning `sim_step`. */
    method SetSimStep(step: real)
      requires Valid()
      modifies this
      ensures Valid()
      ensures simStep == step
      ensures numSamplers == old(numSamplers) && currentTime == old(currentTime)
      ensures wipeTime == old(wipeTime) && binaryStateSetExternally == old(binaryStateSetExternally)
      ensures externalState == old(externalState) && imprintCurrentSet == old(imprintCurrentSet)
      ensures connectivity == old(connectivity) && connections == old(connections)
    {
      simStep := step;
    }

    /**
     * `prepare_run`: the weights written to the synapses, in the order of
     * the mask, and, once a state has been set externally, the imprint to
     * program. Weight `k` goes to the `k`-th reported synapse, which is the
     * synapse of its own position when the simulator reports them in
     * row-major order.
     */
    method PrepareRun(weightsBio: Matrix, last: seq<real>, tauRefracs: seq<real>)
      returns (weights: seq<real>, imprint: Option<ImprintPlan>)
      requires Valid() && connectivity.Some? && IsSquare(weightsBio, numSamplers)
      requires |last| == |tauRefracs|
      ensures weights == MaskedWeights(weightsBio, connectivity.value, numSamplers)
      ensures connections == Where(connectivity.value) ==>
        |weights| == |connections| &&
        forall k :: 0 <= k < |weights| ==> weights[k] == 1000.0 * weightsBio[connections[k].0][connections[k].1]
      ensures imprint.Some? <==> binaryStateSetExternally
      ensures imprint.Some? ==> (imprint.value ==
        PrepareImprint(currentTime, wipeTime, simStep, BinaryState(last, tauRefracs), ImprintCurrent(imprintCurrentSet)))
    {
      weights := MaskedWeights(weightsBio, connectivity.value, numSamplers);
      if binaryStateSetExternally {
        imprint := Some(PrepareImprint(currentTime, wipeTime, simStep,
                                       BinaryState(last, tauRefracs), ImprintCurrent(imprintCurrentSet)));
      } else {
        imprint := None;
      }
    }

    /**
     * `process_run`: the clock is read from the simulator; a state assigned
     * before the run no longer stands.
     */
    method ProcessRun(simTime: real)
      requires Valid()
      modifies this
      ensures Valid()
      ensures currentTime == simTime && externalState.None?
      ensures numSamplers == old(numSamplers) && simStep == old(simStep) && wipeTime == old(wipeTime)
      ensures binaryStateSetExternally == old(binaryStateSetExternally) && imprintCurrentSet == old(imprintCurrentSet)
      ensures connectivity == old(connectivity) && connections == old(connections)
    {
      currentTime := simTime;
      externalState := None;
    }

    /**
     * `run`: prepare, let the simulator run for `sim_step + wipe_time` from
     * its clock `simClock`, and process. When the simulator clock agrees
     * with `current_time`, the imprint ends exactly at the new current time.
     */
    method Run(weightsBio: Matrix, last: seq<real>, tauRefracs: seq<real>, simClock: real)
      returns (weights: seq<real>, imprint: Option<ImprintPlan>, t: real)
      requires Valid() && connectivity.Some? && IsSquare(weightsBio, numSamplers)
      requires |last| == |tauRefracs|
      modifies this
      ensures Valid()
      ensures numSamplers == old(numSamplers) && simStep == old(simStep) && wipeTime == old(wipeTime)
      ensures binaryStateSetExternally == old(binaryStateSetExternally) && imprintCurrentSet == old(imprintCurrentSet)
      ensures connectivity == old(connectivity) && connections == old(connections)
      ensures t == currentTime == simClock + (old(simStep) + old(wipeTime))
      ensures weights == MaskedWeights(weightsBio, connectivity.value, numSamplers)
      ensures imprint.Some? <==> binaryStateSetExternally
      ensures imprint.Some? ==>
        imprint.value == PrepareImprint(old(currentTime), wipeTime, simStep, old(BinaryState(last, tauRefracs)), ImprintCurrent(imprintCurrentSet))
      ensures imprint.Some? && simClock == old(currentTime) ==>
        imprint.value.wipe.start == simClock && imprint.value.imprint.stop == currentTime
      ensures externalState.None?
    {
      weights, imprint := PrepareRun(weightsBio, last, tauRefracs);
      ProcessRun(simClock + (simStep + wipeTime));
      t := currentTime;
    }
  }
}
