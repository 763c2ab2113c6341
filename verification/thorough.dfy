/**
 * The connection tables `ThoroughBM.create` in network.py hands to the
 * simulator: one list of `(pre, post, weight, delay[, tau_rec])` tuples per
 * receptor type, chosen by the sign of the biological weights, with the
 * column names and synapse type that go with it.
 */
module Thorough {
  import opened Wrappers
  import opened Matrices
  import opened Network

  /** The two receptor types, `"exc"` and `"inh"`. */
  datatype WeightType = Exc | Inh

  /** One row of a `FromListConnector` connection list. */
  datatype Connection = Connection(pre: nat, post: nat, weight: real, delay: real, tauRec: Option<real>)

  /** The synapse type a projection is created with. */
  datatype SynapseType =
    | TsodyksMarkram(params: map<string, real>)   // `sim.TsodyksMarkramSynapse(weight=0., **params)`
    | NativeTsodyks2(params: map<string, real>)   // `sim.native_synapse_type("tsodyks2_synapse")(**params)`
    | Static                                      // `sim.StaticSynapse(weight=0.)`

  datatype Projection = Projection(wt: WeightType, columns: seq<string>, synapse: SynapseType, connections: seq<Connection>)

  /** `weight_is[wt]`: positive weights are excitatory, negative ones inhibitory. */
  predicate Selected(w: Matrix, n: nat, wt: WeightType, i: nat, j: nat)
    requires IsSquare(w, n) && i < n && j < n
  {
    if wt == Exc then w[i][j] > 0.0 else w[i][j] < 0.0
  }

  /** `weight_is[wt].sum() != 0`: some weight of this type exists. */
  predicate HasAny(w: Matrix, n: nat, wt: WeightType)
    requires IsSquare(w, n)
  {
    exists i, j :: 0 <= i < n && 0 <= j < n && Selected(w, n, wt, i, j)
  }

  /**
   * The factor the copied weights are multiplied with: -1 for inhibitory
   * weights, and 1000 when saturating synapses use the native NEST model.
   */
  function WeightFactor(wt: WeightType, saturating: bool, nestOptimization: bool): (f: real)
    ensures f == 1000.0 || f == -1000.0 || f == 1.0 || f == -1.0
    ensures (f > 0.0) <==> wt == Exc
    ensures (f == 1000.0 || f == -1000.0) <==> saturating && nestOptimization
  {
    (if wt == Inh then -1.0 else 1.0) * (if saturating && nestOptimization then 1000.0 else 1.0)
  }

  /**
   * `self.delays[i_pre, i_post]` (or the scalar itself for a global delay):
   * a two-dimensional array answers inside its shape, anything else raises
   * `IndexError`.
   */
  function DelayAt(d: ArrayLike, i: nat, j: nat): (r: Result<real>)
    ensures r.Err? ==> r.error == IndexError
    ensures d.Nested? && |d.rows| > 0 && IsRect(d.rows, |d.rows|, |d.rows[0]|) ==>
      (r.Ok? <==> i < |d.rows| && j < |d.rows[0]|)
    ensures r.Ok? && d.Nested? ==> i < |d.rows| && j < |d.rows[i]| && r.value == d.rows[i][j]
    ensures d.Vector? ==> r.Err?
  {
    match d
    case Scalar(x) => Ok(x)
    case Vector(_) => Err(IndexError)
    case Nested(rows) =>
      if |rows| > 0 && IsRect(rows, |rows|, |rows[0]|) && i < |rows| && j < |rows[0]| then Ok(rows[i][j])
      else Err(IndexError)
  }

  /**
   * `tau_rec[i_post][wt]`: the target sampler's `tau_syn_E` for excitatory
   * and `tau_syn_I` for inhibitory connections.
   */
  function TauRecAt(taus: seq<(real, real)>, j: nat, wt: WeightType): (r: Result<real>)
    ensures r.Ok? <==> j < |taus|
    ensures r.Err? ==> r.error == IndexError
    ensures r.Ok? ==> r.value == if wt == Exc then taus[j].0 else taus[j].1
  {
    if j < |taus| then Ok(if wt == Exc then taus[j].0 else taus[j].1) else Err(IndexError)
  }

  /** Every lookup a connection at `(i, j)` needs succeeds. */
  predicate Lookups(delays: ArrayLike, taus: seq<(real, real)>, withTauRec: bool, wt: WeightType, i: nat, j: nat) {
    DelayAt(delays, i, j).Ok? && (withTauRec ==> TauRecAt(taus, j, wt).Ok?)
  }

  /** The tuple built for position `(i, j)`. */
  function ConnectionAt(w: Matrix, n: nat, factor: real, delays: ArrayLike, taus: seq<(real, real)>,
                        withTauRec: bool, wt: WeightType, i: nat, j: nat): Connection
    requires IsSquare(w, n) && i < n && j < n && Lookups(delays, taus, withTauRec, wt, i, j)
  {
    Connection(i, j, factor * w[i][j], DelayAt(delays, i, j).value,
               if withTauRec then Some(TauRecAt(taus, j, wt).value) else None)
  }

  /** `(p, q)` comes before `(i, j)` in row-major order. */
  predicate Before(p: nat, q: nat, i: nat, j: nat) {
    p < i || (p == i && q < j)
  }

  /**
   * `cs` is the connection list of type `wt`: one tuple for every position
   * of that sign and no other, in row-major (`np.nonzero`) order.
   */
  predicate IsConnectionList(w: Matrix, n: nat, wt: WeightType, factor: real, delays: ArrayLike,
                             taus: seq<(real, real)>, withTauRec: bool, cs: seq<Connection>)
    requires IsSquare(w, n)
  {
    && (forall k :: 0 <= k < |cs| ==>
          && cs[k].pre < n && cs[k].post < n
          && Selected(w, n, wt, cs[k].pre, cs[k].post)
          && Lookups(delays, taus, withTauRec, wt, cs[k].pre, cs[k].post)
          && cs[k] == ConnectionAt(w, n, factor, delays, taus, withTauRec, wt, cs[k].pre, cs[k].post))
    && (forall k, l :: 0 <= k < l < |cs| ==> Before(cs[k].pre, cs[k].post, cs[l].pre, cs[l].post))
    && (forall i, j :: 0 <= i < n && 0 <= j < n && Selected(w, n, wt, i, j) ==> Listed(cs, i, j))
  }

  predicate Listed(cs: seq<Connection>, i: nat, j: nat) {
    exists k :: 0 <= k < |cs| && cs[k].pre == i && cs[k].post == j
  }

  /** Every connection in `cs` precedes `(i, j)`. */
  predicate AllBefore(cs: seq<Connection>, i: nat, j: nat) {
    forall k :: 0 <= k < |cs| ==> Before(cs[k].pre, cs[k].post, i, j)
  }

  /** Every selected position before `(i, j)` has its lookups and its tuple in `cs`. */
  predicate CoveredUpTo(w: Matrix, n: nat, wt: WeightType, delays: ArrayLike, taus: seq<(real, real)>,
                        withTauRec: bool, cs: seq<Connection>, i: nat, j: nat)
    requires IsSquare(w, n)
  {
    forall p, q :: 0 <= p < n && 0 <= q < n && Before(p, q, i, j) && Selected(w, n, wt, p, q) ==>
      Lookups(delays, taus, withTauRec, wt, p, q) && Listed(cs, p, q)
  }

  /**
   * The loop over `zip(*np.nonzero(weight_is[wt]))`: appends one tuple per
   * selected position; a missing delay or `tau_rec` entry raises `IndexError`.
   */
  method ConnectionList(w: Matrix, n: nat, wt: WeightType, factor: real, delays: ArrayLike,
                        taus: seq<(real, real)>, withTauRec: bool) returns (r: Result<seq<Connection>>)
    requires IsSquare(w, n)
    ensures r.Ok? <==> forall i, j :: 0 <= i < n && 0 <= j < n && Selected(w, n, wt, i, j) ==>
      Lookups(delays, taus, withTauRec, wt, i, j)
    ensures r.Err? ==> r.error == IndexError
    ensures r.Ok? ==> IsConnectionList(w, n, wt, factor, delays, taus, withTauRec, r.value)
  {
    var cs: seq<Connection> := [];
    for i := 0 to n
      invariant AllBefore(cs, i, 0)
      invariant CoveredUpTo(w, n, wt, delays, taus, withTauRec, cs, i, 0)
      invariant IsPartialList(w, n, wt, factor, delays, taus, withTauRec, cs)
    {
      for j := 0 to n
        invariant AllBefore(cs, i, j)
        invariant CoveredUpTo(w, n, wt, delays, taus, withTauRec, cs, i, j)
        invariant IsPartialList(w, n, wt, factor, delays, taus, withTauRec, cs)
      {
        var next := Visit(w, n, wt, factor, delays, taus, withTauRec, cs, i, j);
        if next.Err? {
          return Err(IndexError);
        }
        cs := next.value;
      }
    }
    r := Ok(cs);
  }

  /** One iteration: the tuple for `(i, j)` is appended when that position is selected. */
  method Visit(w: Matrix, n: nat, wt: WeightType, factor: real, delays: ArrayLike,
               taus: seq<(real, real)>, withTauRec: bool, cs: seq<Connection>, i: nat, j: nat)
    returns (r: Result<seq<Connection>>)
    requires IsSquare(w, n) && i < n && j < n
    requires AllBefore(cs, i, j) && CoveredUpTo(w, n, wt, delays, taus, withTauRec, cs, i, j)
    requires IsPartialList(w, n, wt, factor, delays, taus, withTauRec, cs)
    ensures r.Err? <==> Selected(w, n, wt, i, j) && !Lookups(delays, taus, withTauRec, wt, i, j)
    ensures r.Ok? ==> AllBefore(r.value, i, j + 1) && CoveredUpTo(w, n, wt, delays, taus, withTauRec, r.value, i, j + 1)
    ensures r.Ok? ==> IsPartialList(w, n, wt, factor, delays, taus, withTauRec, r.value)
  {
    if !Selected(w, n, wt, i, j) {
      SkipStep(w, n, wt, delays, taus, withTauRec, cs, i, j);
      return Ok(cs);
    }
    var delay := DelayAt(delays, i, j);
    if delay.Err? {
      return Err(IndexError);
    }
    var tauRec: Option<real> := None;
    if withTauRec {
      var t := TauRecAt(taus, j, wt);
      if t.Err? {
        return Err(IndexError);
      }
      tauRec := Some(t.value);
    }
    var c := Connection(i, j, factor * w[i][j], delay.value, tauRec);
    assert c == ConnectionAt(w, n, factor, delays, taus, withTauRec, wt, i, j);
    AppendOrder(cs, c, i, j);
    AppendCovered(w, n, wt, delays, taus, withTauRec, cs, c, i, j);
    AppendPartial(w, n, wt, factor, delays, taus, withTauRec, cs, c, i, j);
    r := Ok(cs + [c]);
  }

  /** An unselected position adds nothing to cover. */
  lemma SkipStep(w: Matrix, n: nat, wt: WeightType, delays: ArrayLike, taus: seq<(real, real)>,
                 withTauRec: bool, cs: seq<Connection>, i: nat, j: nat)
    requires IsSquare(w, n) && i < n && j < n && !Selected(w, n, wt, i, j)
    requires AllBefore(cs, i, j) && CoveredUpTo(w, n, wt, delays, taus, withTauRec, cs, i, j)
    ensures AllBefore(cs, i, j + 1) && CoveredUpTo(w, n, wt, delays, taus, withTauRec, cs, i, j + 1)
  {
  }

  /** The tuple for `(i, j)` comes after every earlier one. */
  lemma AppendOrder(cs: seq<Connection>, c: Connection, i: nat, j: nat)
    requires AllBefore(cs, i, j) && c.pre == i && c.post == j
    ensures AllBefore(cs + [c], i, j + 1)
    ensures forall k :: 0 <= k < |cs| ==> Before(cs[k].pre, cs[k].post, c.pre, c.post)
  {
  }

  /** Appending the tuple for `(i, j)` covers that position as well. */
  lemma AppendCovered(w: Matrix, n: nat, wt: WeightType, delays: ArrayLike, taus: seq<(real, real)>,
                      withTauRec: bool, cs: seq<Connection>, c: Connection, i: nat, j: nat)
    requires IsSquare(w, n) && i < n && j < n && Lookups(delays, taus, withTauRec, wt, i, j)
    requires CoveredUpTo(w, n, wt, delays, taus, withTauRec, cs, i, j) && c.pre == i && c.post == j
    ensures CoveredUpTo(w, n, wt, delays, taus, withTauRec, cs + [c], i, j + 1)
  {
    var cs' := cs + [c];
    assert Listed(cs', i, j) by {
      assert cs'[|cs|] == c;
    }
    ListedGrows(cs, c);
  }

  /** Appending the tuple for a selected position keeps the list well formed. */
  lemma AppendPartial(w: Matrix, n: nat, wt: WeightType, factor: real, delays: ArrayLike,
                      taus: seq<(real, real)>, withTauRec: bool, cs: seq<Connection>, c: Connection, i: nat, j: nat)
    requires IsSquare(w, n) && i < n && j < n && Selected(w, n, wt, i, j)
    requires Lookups(delays, taus, withTauRec, wt, i, j)
    requires c == ConnectionAt(w, n, factor, delays, taus, withTauRec, wt, i, j)
    requires IsPartialList(w, n, wt, factor, delays, taus, withTauRec, cs)
    requires forall k :: 0 <= k < |cs| ==> Before(cs[k].pre, cs[k].post, c.pre, c.post)
    ensures IsPartialList(w, n, wt, factor, delays, taus, withTauRec, cs + [c])
  {
    var cs' := cs + [c];
    forall k, l | 0 <= k < l < |cs'| ensures Before(cs'[k].pre, cs'[k].post, cs'[l].pre, cs'[l].post) {
      assert cs'[k] == cs[k];
      if l < |cs| {
        assert cs'[l] == cs[l];
      }
    }
  }

  /** The first two conjuncts of `IsConnectionList`, for a list under construction. */
  predicate IsPartialList(w: Matrix, n: nat, wt: WeightType, factor: real, delays: ArrayLike,
                          taus: seq<(real, real)>, withTauRec: bool, cs: seq<Connection>)
    requires IsSquare(w, n)
  {
    && (forall k :: 0 <= k < |cs| ==>
          && cs[k].pre < n && cs[k].post < n
          && Selected(w, n, wt, cs[k].pre, cs[k].post)
          && Lookups(delays, taus, withTauRec, wt, cs[k].pre, cs[k].post)
          && cs[k] == ConnectionAt(w, n, factor, delays, taus, withTauRec, wt, cs[k].pre, cs[k].post))
    && (forall k, l :: 0 <= k < l < |cs| ==> Before(cs[k].pre, cs[k].post, cs[l].pre, cs[l].post))
  }

  lemma ListedGrows(cs: seq<Connection>, c: Connection)
    ensures forall i, j :: Listed(cs, i, j) ==> Listed(cs + [c], i, j)
  {
    forall i, j | Listed(cs, i, j) ensures Listed(cs + [c], i, j) {
      var k :| 0 <= k < |cs| && cs[k].pre == i && cs[k].post == j;
      assert (cs + [c])[k] == cs[k];
    }
  }

  /**
   * The stored weight of every connection is positive: excitatory weights
   * are positive already and inhibitory ones are negated.
   */
  lemma ConnectionWeightsPositive(w: Matrix, n: nat, wt: WeightType, saturating: bool, nestOptimization: bool,
                                  delays: ArrayLike, taus: seq<(real, real)>, withTauRec: bool, cs: seq<Connection>)
    requires IsSquare(w, n)
    requires IsConnectionList(w, n, wt, WeightFactor(wt, saturating, nestOptimization), delays, taus, withTauRec, cs)
    ensures forall k :: 0 <= k < |cs| ==> cs[k].weight > 0.0
  {
    var f := WeightFactor(wt, saturating, nestOptimization);
    forall k | 0 <= k < |cs| ensures cs[k].weight > 0.0 {
      var i, j := cs[k].pre, cs[k].post;
      assert cs[k].weight == f * w[i][j];
      if wt == Exc {
        assert w[i][j] > 0.0 && f > 0.0;
      } else {
        assert w[i][j] < 0.0 && f < 0.0;
      }
    }
  }

  /**
   * A zero weight is never connected, no position is connected twice, and
   * with a zero diagonal no sampler is connected to itself.
   */
  lemma ConnectionListShape(w: Matrix, n: nat, wt: WeightType, factor: real, delays: ArrayLike,
                            taus: seq<(real, real)>, withTauRec: bool, cs: seq<Connection>)
    requires IsSquare(w, n)
    requires IsConnectionList(w, n, wt, factor, delays, taus, withTauRec, cs)
    ensures forall k :: 0 <= k < |cs| ==> w[cs[k].pre][cs[k].post] != 0.0
    ensures forall k, l :: 0 <= k < l < |cs| ==> (cs[k].pre, cs[k].post) != (cs[l].pre, cs[l].post)
    ensures ZeroDiagonal(w) ==> forall k :: 0 <= k < |cs| ==> cs[k].pre != cs[k].post
  {
    forall k | 0 <= k < |cs| ensures w[cs[k].pre][cs[k].post] != 0.0 {
      assert Selected(w, n, wt, cs[k].pre, cs[k].post);
    }
  }

  /** An excitatory and an inhibitory list never share a position. */
  lemma ListsDisjoint(w: Matrix, n: nat, fe: real, fi: real, delays: ArrayLike, taus: seq<(real, real)>,
                      withTauRec: bool, exc: seq<Connection>, inh: seq<Connection>)
    requires IsSquare(w, n)
    requires IsConnectionList(w, n, Exc, fe, delays, taus, withTauRec, exc)
    requires IsConnectionList(w, n, Inh, fi, delays, taus, withTauRec, inh)
    ensures forall k, l :: 0 <= k < |exc| && 0 <= l < |inh| ==> (exc[k].pre, exc[k].post) != (inh[l].pre, inh[l].post)
  {
    forall k, l | 0 <= k < |exc| && 0 <= l < |inh| ensures (exc[k].pre, exc[k].post) != (inh[l].pre, inh[l].post) {
      assert Selected(w, n, Exc, exc[k].pre, exc[k].post);
      assert Selected(w, n, Inh, inh[l].pre, inh[l].post);
    }
  }

  /** `column_names`: `tau_rec` is a column exactly when it is supplied per connection. */
  function ColumnNames(saturating: bool, tauRecOverwritten: bool): (cols: seq<string>)
    ensures |cols| >= 2 && cols[..2] == ["weight", "delay"]
    ensures "tau_rec" in cols <==> saturating && !tauRecOverwritten
  {
    if saturating && !tauRecOverwritten then ["weight", "delay", "tau_rec"] else ["weight", "delay"]
  }

  /**
   * The synapse type: Tsodyks-Markram without its `u` entry in PyNN, the
   * native `tsodyks2_synapse` with every TSO parameter under the NEST
   * optimisation, and a static synapse without saturation.
   */
  function SynapseTypeFor(saturating: bool, nestOptimization: bool, tso: map<string, real>): (s: SynapseType)
    ensures !saturating <==> s.Static?
    ensures s.TsodyksMarkram? ==> "u" !in s.params && forall k :: k in s.params <==> k in tso && k != "u"
    ensures s.NativeTsodyks2? ==> s.params == tso
    ensures s.NativeTsodyks2? <==> saturating && nestOptimization
  {
    if !saturating then Static
    else if nestOptimization then NativeTsodyks2(tso)
    else TsodyksMarkram(tso - {"u"})
  }

  /**
   * The projection of one receptor type, or none when no weight has that
   * sign (`continue`).
   */
  method ProjectionFor(w: Matrix, n: nat, wt: WeightType, delays: ArrayLike, taus: seq<(real, real)>,
                       saturating: bool, nestOptimization: bool, tso: map<string, real>)
    returns (r: Result<Option<Projection>>)
    requires IsSquare(w, n)
    ensures !HasAny(w, n, wt) ==> r == Ok(None)
    ensures r.Ok? ==> (r.value.Some? <==> HasAny(w, n, wt))
    ensures HasAny(w, n, wt) ==> (r.Ok? <==> forall i, j :: 0 <= i < n && 0 <= j < n && Selected(w, n, wt, i, j) ==>
      Lookups(delays, taus, saturating && "tau_rec" !in tso, wt, i, j))
    ensures r.Err? ==> r.error == IndexError
    ensures r.Ok? && r.value.Some? ==>
      var p := r.value.value;
      && HasAny(w, n, wt) && p.wt == wt
      && p.columns == ColumnNames(saturating, "tau_rec" in tso)
      && p.synapse == SynapseTypeFor(saturating, nestOptimization, tso)
      && IsConnectionList(w, n, wt, WeightFactor(wt, saturating, nestOptimization), delays, taus,
                          saturating && "tau_rec" !in tso, p.connections)
  {
    if !HasAny(w, n, wt) {
      return Ok(None);
    }
    var withTauRec := saturating && "tau_rec" !in tso;
    var cs := ConnectionList(w, n, wt, WeightFactor(wt, saturating, nestOptimization), delays, taus, withTauRec);
    if cs.Err? {
      return Err(cs.error);
    }
    r := Ok(Some(Projection(wt, ColumnNames(saturating, "tau_rec" in tso),
                            SynapseTypeFor(saturating, nestOptimization, tso), cs.value)));
  }

  /** Every selected position, of either sign, finds its delay and, when needed, its `tau_rec`. */
  predicate AllLookups(w: Matrix, n: nat, delays: ArrayLike, taus: seq<(real, real)>, withTauRec: bool)
    requires IsSquare(w, n)
  {
    forall wt, i, j :: 0 <= i < n && 0 <= j < n && Selected(w, n, wt, i, j) ==>
      Lookups(delays, taus, withTauRec, wt, i, j)
  }

  /** All lookups succeed exactly when they succeed for each sign, a sign without weights trivially. */
  lemma LookupsBySign(w: Matrix, n: nat, delays: ArrayLike, taus: seq<(real, real)>, withTauRec: bool)
    requires IsSquare(w, n)
    ensures AllLookups(w, n, delays, taus, withTauRec) <==>
      forall wt :: HasAny(w, n, wt) ==> forall i, j :: 0 <= i < n && 0 <= j < n && Selected(w, n, wt, i, j) ==>
        Lookups(delays, taus, withTauRec, wt, i, j)
  {
    forall wt, i, j | 0 <= i < n && 0 <= j < n && Selected(w, n, wt, i, j)
      ensures HasAny(w, n, wt)
    {
    }
  }

  /**
   * The connection part of `ThoroughBM.create`: the excitatory projection
   * first, then the inhibitory one, each only when weights of its sign
   * exist. `taus` holds each sampler's `(tau_syn_E, tau_syn_I)`.
   */
  method CreateProjections(w: Matrix, n: nat, delays: ArrayLike, taus: seq<(real, real)>,
                           saturating: bool, nestOptimization: bool, tso: map<string, real>)
    returns (r: Result<seq<Projection>>)
    requires IsSquare(w, n)
    ensures r.Ok? ==> |r.value| == (if HasAny(w, n, Exc) then 1 else 0) + (if HasAny(w, n, Inh) then 1 else 0)
    ensures r.Ok? ==> forall k :: 0 <= k < |r.value| ==>
      var p := r.value[k];
      && HasAny(w, n, p.wt)
      && p.columns == ColumnNames(saturating, "tau_rec" in tso)
      && p.synapse == SynapseTypeFor(saturating, nestOptimization, tso)
      && (k == 0 <==> (p.wt == Exc || !HasAny(w, n, Exc)))
      && IsConnectionList(w, n, p.wt, WeightFactor(p.wt, saturating, nestOptimization), delays, taus,
                          saturating && "tau_rec" !in tso, p.connections)
    ensures r.Ok? <==> AllLookups(w, n, delays, taus, saturating && "tau_rec" !in tso)
    ensures r.Err? ==> r.error == IndexError
  {
    LookupsBySign(w, n, delays, taus, saturating && "tau_rec" !in tso);
    var exc := ProjectionFor(w, n, Exc, delays, taus, saturating, nestOptimization, tso);
    if exc.Err? {
      return Err(exc.error);
    }
    var inh := ProjectionFor(w, n, Inh, delays, taus, saturating, nestOptimization, tso);
    if inh.Err? {
      return Err(inh.error);
    }
    var ps: seq<Projection> := [];
    if exc.value.Some? {
      ps := ps + [exc.value.value];
    }
    if inh.value.Some? {
      ps := ps + [inh.value.value];
    }
    r := Ok(ps);
  }
}
