/**
 * The connection tables of sbs/db/sources.py: how the background sources
 * of a list of samplers are grouped by configuration class, which source
 * feeds which sampler with which weight, and how the tables are split into
 * an excitatory and an inhibitory part. Creating sources and projections in
 * the simulator is outside the model; the tables handed to it are returned.
 */
module Sources {
  import opened Wrappers

  // ---------------------------------------------------------------------
  // Configurations and grouping by class
  // ---------------------------------------------------------------------

  /** A sampler's source configuration, by class. */
  datatype SourceConfig =
    | BaseConfig
    | PoissonConfig(poisson: PoissonSpec)
    | FixedTrainConfig(train: TrainSpec)

  datatype ConfigClass = BaseClass | PoissonClass | FixedTrainClass

  function ClassOf(c: SourceConfig): ConfigClass {
    match c
    case BaseConfig => BaseClass
    case PoissonConfig(_) => PoissonClass
    case FixedTrainConfig(_) => FixedTrainClass
  }

  /** `isinstance(c, k)`: both concrete classes derive from the base class. */
  predicate IsInstance(c: SourceConfig, k: ConfigClass) {
    k == BaseClass || ClassOf(c) == k
  }

  function Concat<T>(groups: seq<seq<T>>): seq<T> {
    if |groups| == 0 then [] else Concat(groups[..|groups| - 1]) + groups[|groups| - 1]
  }

  /**
   * `groups` splits `samplers` into consecutive runs: each run is non-empty,
   * its members are instances of the class of its first member, and each
   * run starts with a configuration that is not an instance of the class
   * of the run before it.
   */
  predicate IsRunGrouping(samplers: seq<SourceConfig>, groups: seq<seq<SourceConfig>>) {
    && Concat(groups) == samplers
    && (forall g :: 0 <= g < |groups| ==> |groups[g]| > 0)
    && (forall g, m :: 0 <= g < |groups| && 0 <= m < |groups[g]| ==>
          IsInstance(groups[g][m], ClassOf(groups[g][0])))
    && (forall g :: 0 < g < |groups| ==> !IsInstance(groups[g][0], ClassOf(groups[g - 1][0])))
  }

  lemma ConcatAppendGroup<T>(groups: seq<seq<T>>, g: seq<T>)
    ensures Concat(groups + [g]) == Concat(groups) + g
  {
    assert (groups + [g])[..|groups|] == groups;
  }

  lemma ConcatExtendLast<T>(groups: seq<seq<T>>, x: T)
    requires |groups| > 0
    ensures Concat(groups[..|groups| - 1] + [groups[|groups| - 1] + [x]]) == Concat(groups) + [x]
  {
    var init := groups[..|groups| - 1];
    ConcatAppendGroup(init, groups[|groups| - 1] + [x]);
  }

  /** A configuration of the last run's class joins that run. */
  lemma JoinLastRun(seen: seq<SourceConfig>, groups: seq<seq<SourceConfig>>, s: SourceConfig)
    requires |groups| > 0 && IsRunGrouping(seen, groups)
    requires IsInstance(s, ClassOf(groups[|groups| - 1][0]))
    ensures IsRunGrouping(seen + [s], groups[..|groups| - 1] + [groups[|groups| - 1] + [s]])
  {
    var n := |groups| - 1;
    var next := groups[..n] + [groups[n] + [s]];
    ConcatExtendLast(groups, s);
    assert forall g :: 0 <= g < n ==> next[g] == groups[g];
    assert next[n][0] == groups[n][0];
  }

  /** A configuration of another class opens a new run. */
  lemma OpenRun(seen: seq<SourceConfig>, groups: seq<seq<SourceConfig>>, s: SourceConfig)
    requires |groups| > 0 && IsRunGrouping(seen, groups)
    requires !IsInstance(s, ClassOf(groups[|groups| - 1][0]))
    ensures IsRunGrouping(seen + [s], groups + [[s]])
  {
    var next := groups + [[s]];
    ConcatAppendGroup(groups, [s]);
    assert forall g :: 0 <= g < |groups| ==> next[g] == groups[g];
  }

  /**
   * The grouping loop of `sources_create_connect`: the first sampler opens
   * the first run (an empty list has no first sampler), every later one
   * joins the last run when it is an instance of that run's first class and
   * opens a new run otherwise.
   */
  method GroupBySourceClass(samplers: seq<SourceConfig>) returns (r: Result<seq<seq<SourceConfig>>>)
    ensures r.Err? <==> |samplers| == 0
    ensures r.Err? ==> r.error == IndexError
    ensures r.Ok? ==> IsRunGrouping(samplers, r.value)
  {
    if |samplers| == 0 {
      return Err(IndexError);
    }
    var groups := [[samplers[0]]];
    assert Concat(groups) == Concat(groups[..0]) + [samplers[0]];
    assert samplers[..1] == [samplers[0]];
    for k := 1 to |samplers|
      invariant |groups| > 0
      invariant IsRunGrouping(samplers[..k], groups)
    {
      var s := samplers[k];
      var last := groups[|groups| - 1];
      assert samplers[..k + 1] == samplers[..k] + [s];
      if IsInstance(s, ClassOf(last[0])) {
        JoinLastRun(samplers[..k], groups, s);
        groups := groups[..|groups| - 1] + [last + [s]];
      } else {
        OpenRun(samplers[..k], groups, s);
        groups := groups + [[s]];
      }
    }
    assert samplers[..|samplers|] == samplers;
    r := Ok(groups);
  }

  /** The error run `g` raises: the base class's `NotImplementedError`, or what its `create_connect` raises. */
  predicate FailsWith<R>(run: seq<SourceConfig>, createConnect: seq<SourceConfig> -> Result<R>, e: Error)
    requires |run| > 0
  {
    if run[0].BaseConfig? then e == NotImplementedError
    else createConnect(run).Err? && createConnect(run).error == e
  }

  /** Run `g` is the first run that fails, and it fails with `e`. */
  predicate FirstFailure<R>(groups: seq<seq<SourceConfig>>, createConnect: seq<SourceConfig> -> Result<R>, g: nat, e: Error)
    requires g < |groups| && forall h :: 0 <= h < |groups| ==> |groups[h]| > 0
  {
    && (forall h :: 0 <= h < g ==> !groups[h][0].BaseConfig? && createConnect(groups[h]).Ok?)
    && FailsWith(groups[g], createConnect, e)
  }

  /**
   * `sources_create_connect`: one `create_connect` of the group's first
   * configuration per group, in group order; the base class raises
   * `NotImplementedError`. The class-specific `create_connect` is the
   * parameter `createConnect`.
   */
  method SourcesCreateConnect<R>(samplers: seq<SourceConfig>, createConnect: seq<SourceConfig> -> Result<R>)
    returns (r: Result<seq<R>>, ghost groups: seq<seq<SourceConfig>>)
    ensures |samplers| == 0 ==> r == Err(IndexError)
    ensures |samplers| > 0 ==> IsRunGrouping(samplers, groups)
    ensures r.Ok? ==> |r.value| == |groups| && forall g :: 0 <= g < |groups| ==>
      (!groups[g][0].BaseConfig? && createConnect(groups[g]) == Ok(r.value[g]))
    ensures |samplers| > 0 && r.Err? ==> exists g :: 0 <= g < |groups| && FirstFailure(groups, createConnect, g, r.error)
  {
    var grouped := GroupBySourceClass(samplers);
    if grouped.Err? {
      return Err(grouped.error), [];
    }
    var gs := grouped.value;
    groups := gs;
    var results: seq<R> := [];
    for g := 0 to |gs|
      invariant |results| == g
      invariant forall q :: 0 <= q < g ==> !gs[q][0].BaseConfig? && createConnect(gs[q]) == Ok(results[q])
    {
      if gs[g][0].BaseConfig? {
        assert FirstFailure(groups, createConnect, g, NotImplementedError);
        return Err(NotImplementedError), groups;
      }
      var res := createConnect(gs[g]);
      if res.Err? {
        assert FirstFailure(groups, createConnect, g, res.error);
        return Err(res.error), groups;
      }
      results := results + [res.value];
    }
    r := Ok(results);
  }

  // ---------------------------------------------------------------------
  // Classification by sign
  // ---------------------------------------------------------------------

  /** One row of a `FromListConnector`: source index, sampler index, weight. */
  datatype Conn = Conn(pre: nat, post: nat, weight: real)

  function Abs(x: real): real {
    if x < 0.0 then -x else x
  }

  /** The stored weight: its magnitude for a conductance-based population. */
  function StoredWeight(w: real, conductanceBased: bool): (s: real)
    ensures conductanceBased ==> s >= 0.0 && (s == w || s == -w)
    ensures !conductanceBased ==> s == w
  {
    if conductanceBased then Abs(w) else w
  }

  /** `connect_one_to_all` is marked broken and raises at once. */
  function ConnectOneToAll(weights: seq<real>, numSamplers: nat): (r: Result<seq<Conn>>)
    ensures r == Err(NotImplementedError)
  {
    Err(NotImplementedError)
  }

  /**
   * The rows `connect_one_to_one` lists for sampler `j` and one receptor
   * type, over the first `m` weights: `(i, j, w_i)` for every `i` whose
   * weight is of that type (`w_i > 0` excitatory, otherwise inhibitory).
   */
  function OneToOneRows(ws: seq<real>, j: nat, exc: bool, cb: bool, m: nat): (rows: seq<Conn>)
    requires m <= |ws|
    ensures forall k :: 0 <= k < |rows| ==> (rows[k].post == j && rows[k].pre < m &&
      (ws[rows[k].pre] > 0.0 <==> exc) && rows[k].weight == StoredWeight(ws[rows[k].pre], cb))
    ensures forall k, l :: 0 <= k < l < |rows| ==> rows[k].pre < rows[l].pre
    decreases m
  {
    if m == 0 then []
    else
      OneToOneRows(ws, j, exc, cb, m - 1) +
        (if (ws[m - 1] > 0.0) == exc then [Conn(m - 1, j, StoredWeight(ws[m - 1], cb))] else [])
  }

  /** Some row of `rows` has source index `i`. */
  predicate ListsSource(rows: seq<Conn>, i: nat) {
    exists k :: 0 <= k < |rows| && rows[k].pre == i
  }

  /** Every weight lands in one of the two lists: the two lists together have one row per weight. */
  lemma {:induction false} OneToOneCount(ws: seq<real>, j: nat, cb: bool, m: nat)
    requires m <= |ws|
    ensures |OneToOneRows(ws, j, true, cb, m)| + |OneToOneRows(ws, j, false, cb, m)| == m
    decreases m
  {
    if m > 0 {
      OneToOneCount(ws, j, cb, m - 1);
    }
  }

  /** Every weight is listed in the list its sign picks. */
  lemma OneToOneCovers(ws: seq<real>, j: nat, cb: bool, m: nat)
    requires m <= |ws|
    ensures forall i :: 0 <= i < m ==> ListsSource(OneToOneRows(ws, j, ws[i] > 0.0, cb, m), i)
  {
    forall i | 0 <= i < m
      ensures ListsSource(OneToOneRows(ws, j, ws[i] > 0.0, cb, m), i)
    {
      OneToOneListed(ws, j, cb, m, i);
    }
  }

  /** Weight `i` is listed once the loop has passed it. */
  lemma {:induction false} OneToOneListed(ws: seq<real>, j: nat, cb: bool, m: nat, i: nat)
    requires i < m <= |ws|
    ensures ListsSource(OneToOneRows(ws, j, ws[i] > 0.0, cb, m), i)
    decreases m
  {
    if i < m - 1 {
      OneToOneListed(ws, j, cb, m - 1, i);
    }
    ListedStaysListed(ws, j, ws[i] > 0.0, cb, m, i);
  }

  lemma {:induction false} ListedStaysListed(ws: seq<real>, j: nat, exc: bool, cb: bool, m: nat, i: nat)
    requires 0 <= i < m <= |ws| && (ws[i] > 0.0) == exc
    requires i < m - 1 ==> ListsSource(OneToOneRows(ws, j, exc, cb, m - 1), i)
    ensures ListsSource(OneToOneRows(ws, j, exc, cb, m), i)
  {
    var rows := OneToOneRows(ws, j, exc, cb, m);
    var prev := OneToOneRows(ws, j, exc, cb, m - 1);
    var tail := if (ws[m - 1] > 0.0) == exc then [Conn(m - 1, j, StoredWeight(ws[m - 1], cb))] else [];
    assert rows == prev + tail;
    if i < m - 1 {
      var k :| 0 <= k < |prev| && prev[k].pre == i;
      assert rows[k] == prev[k];
    } else {
      assert rows[|prev|] == tail[0];
    }
  }

  /**
   * `connect_one_to_one`: for every sampler `j` (as far as both the weight
   * lists and the source lists go), an inhibitory and an excitatory list;
   * sampler `j`'s population decides whether weights are stored as their
   * magnitude. A population list shorter than that raises `IndexError`.
   */
  method ConnectOneToOne(weights: seq<seq<real>>, numSourceLists: nat, conductanceBased: seq<bool>)
    returns (r: Result<(seq<seq<Conn>>, seq<seq<Conn>>)>)
    ensures var n := if |weights| < numSourceLists then |weights| else numSourceLists;
      && (r.Ok? <==> n <= |conductanceBased|)
      && (r.Err? ==> r.error == IndexError)
      && (r.Ok? ==> (|r.value.0| == n && |r.value.1| == n &&
          forall j :: 0 <= j < n ==>
            (r.value.0[j] == OneToOneRows(weights[j], j, false, conductanceBased[j], |weights[j]|) &&
             r.value.1[j] == OneToOneRows(weights[j], j, true, conductanceBased[j], |weights[j]|))))
  {
    var n := if |weights| < numSourceLists then |weights| else numSourceLists;
    var inh: seq<seq<Conn>> := [];
    var exc: seq<seq<Conn>> := [];
    for j := 0 to n
      invariant |inh| == j && |exc| == j && j <= |conductanceBased|
      invariant forall q :: 0 <= q < j ==>
        (inh[q] == OneToOneRows(weights[q], q, false, conductanceBased[q], |weights[q]|) &&
         exc[q] == OneToOneRows(weights[q], q, true, conductanceBased[q], |weights[q]|))
    {
      if j >= |conductanceBased| {
        return Err(IndexError);
      }
      var cb := conductanceBased[j];
      var li := TypeRows(weights[j], j, false, cb);
      var le := TypeRows(weights[j], j, true, cb);
      inh := inh + [li];
      exc := exc + [le];
    }
    r := Ok((inh, exc));
  }

  /** The inner loop over `zip(np.where(idx)[0], s_weights[idx])`. */
  method TypeRows(ws: seq<real>, j: nat, exc: bool, cb: bool) returns (rows: seq<Conn>)
    ensures rows == OneToOneRows(ws, j, exc, cb, |ws|)
  {
    rows := [];
    for i := 0 to |ws|
      invariant rows == OneToOneRows(ws, j, exc, cb, i)
    {
      if (ws[i] > 0.0) == exc {
        rows := rows + [Conn(i, j, StoredWeight(ws[i], cb))];
      }
    }
  }

  // ---------------------------------------------------------------------
  // NEST-optimised Poisson sources
  // ---------------------------------------------------------------------

  predicate StrictlyIncreasing(s: seq<real>) {
    forall k, l :: 0 <= k < l < |s| ==> s[k] < s[l]
  }

  /** A value below every element of a strictly increasing sequence may go in front. */
  lemma PrependIncreasing(a: real, s: seq<real>)
    requires StrictlyIncreasing(s)
    requires forall y :: y in s ==> a < y
    ensures StrictlyIncreasing([a] + s)
    ensures forall y :: y in [a] + s <==> y == a || y in s
  {
    var r := [a] + s;
    forall k, l | 0 <= k < l < |r| ensures r[k] < r[l] {
      assert r[l] == s[l - 1];
      if k > 0 {
        assert r[k] == s[k - 1];
      } else {
        assert s[l - 1] in s;
      }
    }
  }

  function InsertSorted(x: real, s: seq<real>): (r: seq<real>)
    requires StrictlyIncreasing(s)
    ensures StrictlyIncreasing(r)
    ensures forall y :: y in r <==> y == x || y in s
  {
    if |s| == 0 then [x]
    else if x < s[0] then [x] + s
    else if x == s[0] then s
    else
      var rest := InsertSorted(x, s[1..]);
      assert forall y :: y in s <==> y == s[0] || y in s[1..];
      assert forall y :: y in rest ==> s[0] < y;
      PrependIncreasing(s[0], rest);
      [s[0]] + rest
  }

  /** `np.unique(rates)`: the distinct rates in ascending order. */
  function Unique(xs: seq<real>): (u: seq<real>)
    ensures StrictlyIncreasing(u)
    ensures forall y :: y in u <==> y in xs
  {
    if |xs| == 0 then []
    else InsertSorted(xs[|xs| - 1], Unique(xs[..|xs| - 1]))
  }

  function IndexOf(u: seq<real>, x: real): (i: nat)
    requires x in u
    ensures i < |u| && u[i] == x
  {
    if u[0] == x then 0 else 1 + IndexOf(u[1..], x)
  }

  /** `return_inverse`: for every rate the index of its value among the unique rates. */
  function Inverse(xs: seq<real>): (inv: seq<nat>)
    ensures |inv| == |xs|
    ensures forall k :: 0 <= k < |xs| ==> inv[k] < |Unique(xs)| && Unique(xs)[inv[k]] == xs[k]
  {
    var u := Unique(xs);
    seq(|xs|, k requires 0 <= k < |xs| => IndexOf(u, xs[k]))
  }

  /** One sampler's Poisson configuration: its rates and the weights of its sources. */
  datatype PoissonSpec = PoissonSpec(rates: seq<real>, weights: seq<real>)

  /** `np.hstack` of the samplers' rates. */
  function AllRates(specs: seq<PoissonSpec>): (rs: seq<real>)
    ensures |rs| == RateCount(specs, |specs|)
  {
    if |specs| == 0 then []
    else
      var init := specs[..|specs| - 1];
      RateCountPrefix(specs, |init|, |init|);
      AllRates(init) + specs[|specs| - 1].rates
  }

  /** How many rates the first `p` samplers have. */
  function RateCount(specs: seq<PoissonSpec>, p: nat): nat
    requires p <= |specs|
  {
    if p == 0 then 0 else RateCount(specs, p - 1) + |specs[p - 1].rates|
  }

  /** How many weights the first `p` samplers have: where the counter stands when sampler `p` begins. */
  function WeightCount(specs: seq<PoissonSpec>, p: nat): nat
    requires p <= |specs|
  {
    if p == 0 then 0 else WeightCount(specs, p - 1) + |specs[p - 1].weights|
  }

  lemma {:induction false} RateCountPrefix(specs: seq<PoissonSpec>, p: nat, q: nat)
    requires p <= q <= |specs|
    ensures RateCount(specs[..q], p) == RateCount(specs, p)
  {
    if p > 0 {
      RateCountPrefix(specs, p - 1, q);
    }
  }

  lemma {:induction false} RateCountMonotone(specs: seq<PoissonSpec>, p: nat, q: nat)
    requires p <= q <= |specs|
    ensures RateCount(specs, p) <= RateCount(specs, q)
  {
    if p < q {
      RateCountMonotone(specs, p, q - 1);
    }
  }

  /** Sampler `p`'s rate `j` sits at position `RateCount(p) + j` of the stacked rates. */
  lemma {:induction false} RateAt(specs: seq<PoissonSpec>, p: nat, j: nat)
    requires p < |specs| && j < |specs[p].rates|
    ensures RateCount(specs, p) + j < |AllRates(specs)|
    ensures AllRates(specs)[RateCount(specs, p) + j] == specs[p].rates[j]
  {
    var last := |specs| - 1;
    var init := specs[..last];
    RateCountPrefix(specs, last, last);
    if p < last {
      RateCountPrefix(specs, p, last);
      assert init[p] == specs[p];
      RateAt(init, p, j);
    } else {
      RateCountPrefix(specs, p, last);
    }
  }

  lemma {:induction false} CountsAgree(specs: seq<PoissonSpec>, p: nat)
    requires p <= |specs|
    requires forall q :: 0 <= q < |specs| ==> |specs[q].rates| == |specs[q].weights|
    ensures WeightCount(specs, p) == RateCount(specs, p)
  {
    if p > 0 {
      CountsAgree(specs, p - 1);
    }
  }

  /**
   * The rows of one receptor type for one sampler's first `m` weights:
   * weight `j` is fed by the unique source of the rate at the counter's
   * position `base + j`, goes to neuron `post` and is excitatory exactly
   * when positive.
   */
  function SamplerRows(ws: seq<real>, inv: seq<nat>, base: nat, post: nat, exc: bool, cb: bool, m: nat)
    : (rows: seq<Conn>)
    requires m <= |ws| && (m == 0 || base + m <= |inv|)
    ensures |rows| <= m
    ensures forall k :: 0 <= k < |rows| ==> rows[k].post == post
    decreases m
  {
    if m == 0 then []
    else
      var j := m - 1;
      SamplerRows(ws, inv, base, post, exc, cb, j) +
        (if (ws[j] > 0.0) == exc then [Conn(inv[base + j], post, StoredWeight(ws[j], cb))] else [])
  }

  /**
   * The positions among the first `m` weights of the type `exc` (`w > 0`
   * excitatory, otherwise inhibitory), ascending: `np.where` of the sign.
   */
  function SignPositions(ws: seq<real>, exc: bool, m: nat): (ps: seq<nat>)
    requires m <= |ws|
    ensures forall k :: 0 <= k < |ps| ==> ps[k] < m && (ws[ps[k]] > 0.0) == exc
    ensures forall k, l :: 0 <= k < l < |ps| ==> ps[k] < ps[l]
    decreases m
  {
    if m == 0 then []
    else SignPositions(ws, exc, m - 1) + (if (ws[m - 1] > 0.0) == exc then [m - 1] else [])
  }

  /** Every position of the sign is among the sign's positions. */
  lemma {:induction false} SignPositionsComplete(ws: seq<real>, exc: bool, m: nat, j: nat)
    requires j < m <= |ws| && (ws[j] > 0.0) == exc
    ensures j in SignPositions(ws, exc, m)
    decreases m
  {
    if j < m - 1 {
      SignPositionsComplete(ws, exc, m - 1, j);
    }
  }

  /**
   * Row `k` of one type is the row of the `k`-th weight of that type:
   * `conn_type[weight > 0]` receives exactly the weights of its sign, in
   * order, each from the source at the counter's position.
   */
  lemma {:induction false} SamplerRowsAt(ws: seq<real>, inv: seq<nat>, base: nat, post: nat, exc: bool, cb: bool, m: nat)
    requires m <= |ws| && (m == 0 || base + m <= |inv|)
    ensures var rows := SamplerRows(ws, inv, base, post, exc, cb, m);
      var ps := SignPositions(ws, exc, m);
      |rows| == |ps| && forall k :: 0 <= k < |rows| ==>
        rows[k] == Conn(inv[base + ps[k]], post, StoredWeight(ws[ps[k]], cb))
    decreases m
  {
    if m > 0 {
      SamplerRowsAt(ws, inv, base, post, exc, cb, m - 1);
      var rows := SamplerRows(ws, inv, base, post, exc, cb, m);
      var prev := SamplerRows(ws, inv, base, post, exc, cb, m - 1);
      var ps := SignPositions(ws, exc, m);
      var pps := SignPositions(ws, exc, m - 1);
      if (ws[m - 1] > 0.0) == exc {
        assert rows == prev + [Conn(inv[base + m - 1], post, StoredWeight(ws[m - 1], cb))];
        assert ps == pps + [m - 1];
      } else {
        assert rows == prev && ps == pps;
      }
    }
  }

  /** Every weight has exactly one sign: the two types together list each weight once. */
  lemma {:induction false} SamplerRowsCount(ws: seq<real>, inv: seq<nat>, base: nat, post: nat, cb: bool, m: nat)
    requires m <= |ws| && (m == 0 || base + m <= |inv|)
    ensures |SamplerRows(ws, inv, base, post, true, cb, m)| + |SamplerRows(ws, inv, base, post, false, cb, m)| == m
    decreases m
  {
    if m > 0 {
      SamplerRowsCount(ws, inv, base, post, cb, m - 1);
    }
  }

  /** Weight `j` gets its row, from the source at the counter's position `base + j`, in the list its sign picks. */
  lemma SamplerRowsCovers(ws: seq<real>, inv: seq<nat>, base: nat, post: nat, cb: bool, m: nat, j: nat)
    requires j < m <= |ws| && base + m <= |inv|
    ensures Conn(inv[base + j], post, StoredWeight(ws[j], cb)) in SamplerRows(ws, inv, base, post, ws[j] > 0.0, cb, m)
  {
    var ps := SignPositions(ws, ws[j] > 0.0, m);
    SignPositionsComplete(ws, ws[j] > 0.0, m, j);
    SamplerRowsAt(ws, inv, base, post, ws[j] > 0.0, cb, m);
    var k :| 0 <= k < |ps| && ps[k] == j;
    assert SamplerRows(ws, inv, base, post, ws[j] > 0.0, cb, m)[k] == Conn(inv[base + j], post, StoredWeight(ws[j], cb));
  }

  /** The inner loop over one sampler's weights, advancing the counter from `base`. */
  method SamplerLoop(ws: seq<real>, inv: seq<nat>, base: nat, post: nat, cb: bool)
    returns (r: Result<(seq<Conn>, seq<Conn>)>)
    ensures r.Ok? <==> |ws| == 0 || base + |ws| <= |inv|
    ensures r.Err? ==> r.error == IndexError
    ensures r.Ok? ==> r.value == (SamplerRows(ws, inv, base, post, false, cb, |ws|),
                                  SamplerRows(ws, inv, base, post, true, cb, |ws|))
  {
    var inh: seq<Conn> := [];
    var exc: seq<Conn> := [];
    var curSource := base;
    for j := 0 to |ws|
      invariant curSource == base + j && (j == 0 || curSource <= |inv|)
      invariant inh == SamplerRows(ws, inv, base, post, false, cb, j)
      invariant exc == SamplerRows(ws, inv, base, post, true, cb, j)
    {
      if curSource >= |inv| {
        return Err(IndexError);
      }
      var row := Conn(inv[curSource], post, StoredWeight(ws[j], cb));
      if ws[j] > 0.0 {
        exc := exc + [row];
      } else {
        inh := inh + [row];
      }
      curSource := curSource + 1;
    }
    r := Ok((inh, exc));
  }

  /** The rows of one receptor type of the first `n` samplers, each pointing at its own sampler. */
  function AllSamplerRows(specs: seq<PoissonSpec>, inv: seq<nat>, exc: bool, cb: bool, n: nat): seq<Conn>
    requires n <= |specs| && WeightCount(specs, n) <= |inv|
  {
    if n == 0 then []
    else
      WeightCountStep(specs, n - 1);
      AllSamplerRows(specs, inv, exc, cb, n - 1) +
        SamplerRows(specs[n - 1].weights, inv, WeightCount(specs, n - 1), n - 1, exc, cb, |specs[n - 1].weights|)
  }

  /** The row of sampler `i`'s weight `j`: the source at the counter's position, neuron `i`, the stored weight. */
  function WeightRow(specs: seq<PoissonSpec>, inv: seq<nat>, cb: bool, i: nat, j: nat): Conn
    requires i < |specs| && j < |specs[i].weights| && WeightCount(specs, i + 1) <= |inv|
  {
    WeightCountStep(specs, i);
    Conn(inv[WeightCount(specs, i) + j], i, StoredWeight(specs[i].weights[j], cb))
  }

  /** Every weight of the first `n` samplers is listed in the list of its sign. */
  lemma {:induction false} AllSamplerRowsCovers(specs: seq<PoissonSpec>, inv: seq<nat>, cb: bool, n: nat, i: nat, j: nat)
    requires i < n <= |specs| && WeightCount(specs, n) <= |inv| && j < |specs[i].weights|
    ensures WeightCount(specs, i + 1) <= |inv|
    ensures WeightRow(specs, inv, cb, i, j) in AllSamplerRows(specs, inv, specs[i].weights[j] > 0.0, cb, n)
    decreases n
  {
    WeightCountMonotone(specs, i + 1, n);
    WeightCountStep(specs, i);
    WeightCountStep(specs, n - 1);
    var exc := specs[i].weights[j] > 0.0;
    var last := SamplerRows(specs[n - 1].weights, inv, WeightCount(specs, n - 1), n - 1, exc, cb, |specs[n - 1].weights|);
    assert AllSamplerRows(specs, inv, exc, cb, n) == AllSamplerRows(specs, inv, exc, cb, n - 1) + last;
    if i == n - 1 {
      SamplerRowsCovers(specs[i].weights, inv, WeightCount(specs, i), i, cb, |specs[i].weights|, j);
      assert WeightRow(specs, inv, cb, i, j) in last;
    } else {
      WeightCountMonotone(specs, n - 1, n);
      AllSamplerRowsCovers(specs, inv, cb, n - 1, i, j);
    }
  }

  /** `row` is the row of a weight of sign `exc` of one of the first `n` samplers. */
  ghost predicate RowOfWeight(specs: seq<PoissonSpec>, inv: seq<nat>, cb: bool, exc: bool, n: nat, row: Conn)
    requires n <= |specs|
  {
    exists i: nat, j: nat :: i < n && j < |specs[i].weights| && WeightCount(specs, i + 1) <= |inv| &&
      (specs[i].weights[j] > 0.0) == exc && row == WeightRow(specs, inv, cb, i, j)
  }

  /** A row of a weight of the first `p` samplers is one of the first `n >= p`. */
  lemma RowOfWeightGrows(specs: seq<PoissonSpec>, inv: seq<nat>, cb: bool, exc: bool, p: nat, n: nat, row: Conn)
    requires p <= n <= |specs| && RowOfWeight(specs, inv, cb, exc, p, row)
    ensures RowOfWeight(specs, inv, cb, exc, n, row)
  {
    var i: nat, j: nat :| i < p && j < |specs[i].weights| && WeightCount(specs, i + 1) <= |inv| &&
      (specs[i].weights[j] > 0.0) == exc && row == WeightRow(specs, inv, cb, i, j);
    assert i < n;
  }

  /** The rows sampler `p` adds are rows of its weights of the list's sign. */
  lemma LastRowsOfWeight(specs: seq<PoissonSpec>, inv: seq<nat>, exc: bool, cb: bool, p: nat)
    requires p < |specs| && WeightCount(specs, p + 1) <= |inv|
    ensures WeightCount(specs, p) + |specs[p].weights| <= |inv|
    ensures forall row :: row in SamplerRows(specs[p].weights, inv, WeightCount(specs, p), p, exc, cb, |specs[p].weights|) ==>
      RowOfWeight(specs, inv, cb, exc, p + 1, row)
  {
    WeightCountStep(specs, p);
    var ws := specs[p].weights;
    var base := WeightCount(specs, p);
    var last := SamplerRows(ws, inv, base, p, exc, cb, |ws|);
    var ps := SignPositions(ws, exc, |ws|);
    SamplerRowsAt(ws, inv, base, p, exc, cb, |ws|);
    forall row | row in last
      ensures RowOfWeight(specs, inv, cb, exc, p + 1, row)
    {
      var k :| 0 <= k < |last| && last[k] == row;
      assert row == WeightRow(specs, inv, cb, p, ps[k]);
    }
  }

  /** Every row listed for the first `n` samplers is the row of one of their weights of the list's sign. */
  lemma {:induction false} AllSamplerRowsSound(specs: seq<PoissonSpec>, inv: seq<nat>, exc: bool, cb: bool, n: nat)
    requires n <= |specs| && WeightCount(specs, n) <= |inv|
    ensures forall row :: row in AllSamplerRows(specs, inv, exc, cb, n) ==> RowOfWeight(specs, inv, cb, exc, n, row)
    decreases n
  {
    if n > 0 {
      var p := n - 1;
      WeightCountStep(specs, p);
      AllSamplerRowsSound(specs, inv, exc, cb, p);
      LastRowsOfWeight(specs, inv, exc, cb, p);
      var init := AllSamplerRows(specs, inv, exc, cb, p);
      var last := SamplerRows(specs[p].weights, inv, WeightCount(specs, p), p, exc, cb, |specs[p].weights|);
      assert AllSamplerRows(specs, inv, exc, cb, n) == init + last;
      forall row | row in init + last
        ensures RowOfWeight(specs, inv, cb, exc, n, row)
      {
        if row in init {
          RowOfWeightGrows(specs, inv, cb, exc, p, n, row);
        }
      }
    }
  }

  /** Sampler `i` appends its own rows of each type, starting at the counter it finds. */
  lemma AllSamplerRowsStep(specs: seq<PoissonSpec>, inv: seq<nat>, cb: bool, i: nat)
    requires i < |specs| && WeightCount(specs, i) <= |inv|
    requires |specs[i].weights| == 0 || WeightCount(specs, i) + |specs[i].weights| <= |inv|
    ensures WeightCount(specs, i + 1) <= |inv|
    ensures AllSamplerRows(specs, inv, false, cb, i + 1) ==
      AllSamplerRows(specs, inv, false, cb, i) +
        SamplerRows(specs[i].weights, inv, WeightCount(specs, i), i, false, cb, |specs[i].weights|)
    ensures AllSamplerRows(specs, inv, true, cb, i + 1) ==
      AllSamplerRows(specs, inv, true, cb, i) +
        SamplerRows(specs[i].weights, inv, WeightCount(specs, i), i, true, cb, |specs[i].weights|)
  {
    WeightCountStep(specs, i);
  }

  /** Once sampler `i` runs past the rates, so do all samplers together. */
  lemma OverrunPersists(specs: seq<PoissonSpec>, size: nat, i: nat)
    requires i < |specs| && WeightCount(specs, i) + |specs[i].weights| > size
    ensures WeightCount(specs, |specs|) > size
  {
    WeightCountStep(specs, i);
    WeightCountMonotone(specs, i + 1, |specs|);
  }

  lemma WeightCountStep(specs: seq<PoissonSpec>, p: nat)
    requires p < |specs|
    ensures WeightCount(specs, p) + |specs[p].weights| == WeightCount(specs, p + 1)
  {
  }

  lemma {:induction false} WeightCountMonotone(specs: seq<PoissonSpec>, p: nat, q: nat)
    requires p <= q <= |specs|
    ensures WeightCount(specs, p) <= WeightCount(specs, q)
  {
    if p < q {
      WeightCountMonotone(specs, p, q - 1);
    }
  }

  /**
   * `create_nest_optimized` with one population: one source per distinct
   * rate; a single counter walks all samplers' weights in order and picks
   * the source of the rate at the same position; running past the rates
   * raises `IndexError`. With no samplers at all, `np.hstack` of the empty
   * generator would raise `ValueError` and this model returns empty lists;
   * `sources_create_connect` never passes an empty run, so that case does
   * not arise.
   */
  method NestOptimizedConnections(specs: seq<PoissonSpec>, cb: bool)
    returns (r: Result<(seq<Conn>, seq<Conn>)>, uniqRates: seq<real>)
    ensures uniqRates == Unique(AllRates(specs))
    ensures r.Ok? <==> WeightCount(specs, |specs|) <= |AllRates(specs)|
    ensures r.Err? ==> r.error == IndexError
    ensures r.Ok? ==> r.value == (AllSamplerRows(specs, Inverse(AllRates(specs)), false, cb, |specs|),
                                  AllSamplerRows(specs, Inverse(AllRates(specs)), true, cb, |specs|))
  {
    var rates := AllRates(specs);
    uniqRates := Unique(rates);
    r := ConnectSamplers(specs, Inverse(rates), cb);
  }

  /** The loop over the samplers, with `idx_to_src_id` given. */
  method ConnectSamplers(specs: seq<PoissonSpec>, idxToSrcId: seq<nat>, cb: bool)
    returns (r: Result<(seq<Conn>, seq<Conn>)>)
    ensures r.Ok? <==> WeightCount(specs, |specs|) <= |idxToSrcId|
    ensures r.Err? ==> r.error == IndexError
    ensures r.Ok? ==> r.value == (AllSamplerRows(specs, idxToSrcId, false, cb, |specs|),
                                  AllSamplerRows(specs, idxToSrcId, true, cb, |specs|))
  {
    var inh: seq<Conn> := [];
    var exc: seq<Conn> := [];
    var curSource := 0;
    for i := 0 to |specs|
      invariant curSource == WeightCount(specs, i) <= |idxToSrcId|
      invariant inh == AllSamplerRows(specs, idxToSrcId, false, cb, i)
      invariant exc == AllSamplerRows(specs, idxToSrcId, true, cb, i)
    {
      var rows := SamplerLoop(specs[i].weights, idxToSrcId, curSource, i, cb);
      if rows.Err? {
        OverrunPersists(specs, |idxToSrcId|, i);
        return Err(rows.error);
      }
      AllSamplerRowsStep(specs, idxToSrcId, cb, i);
      inh := inh + rows.value.0;
      exc := exc + rows.value.1;
      curSource := curSource + |specs[i].weights|;
    }
    r := Ok((inh, exc));
  }

  /**
   * `create_nest_optimized` with one population per sampler: the counter
   * runs on across samplers, each sampler's lists are fresh and point to
   * neuron 0 of its own population; the weights go as far as the
   * populations do.
   */
  method NestOptimizedPerPopulation(specs: seq<PoissonSpec>, conductanceBased: seq<bool>)
    returns (r: Result<seq<(seq<Conn>, seq<Conn>)>>)
    ensures var n := if |conductanceBased| < |specs| then |conductanceBased| else |specs|;
      && (r.Ok? <==> WeightCount(specs, n) <= |AllRates(specs)|)
      && (r.Err? ==> r.error == IndexError)
      && (r.Ok? ==> |r.value| == n && forall p :: 0 <= p < n ==>
            PopulationRows(specs, Inverse(AllRates(specs)), conductanceBased[p], p, r.value[p]))
  {
    var n := if |conductanceBased| < |specs| then |conductanceBased| else |specs|;
    r := ConnectPopulations(specs, n, conductanceBased, Inverse(AllRates(specs)));
  }

  /** The loop over the populations, with `idx_to_src_id` given. */
  method ConnectPopulations(specs: seq<PoissonSpec>, n: nat, conductanceBased: seq<bool>, idxToSrcId: seq<nat>)
    returns (r: Result<seq<(seq<Conn>, seq<Conn>)>>)
    requires n <= |specs| && n <= |conductanceBased|
    ensures r.Ok? <==> WeightCount(specs, n) <= |idxToSrcId|
    ensures r.Err? ==> r.error == IndexError
    ensures r.Ok? ==> |r.value| == n && forall p :: 0 <= p < n ==>
      PopulationRows(specs, idxToSrcId, conductanceBased[p], p, r.value[p])
  {
    var out: seq<(seq<Conn>, seq<Conn>)> := [];
    var curSource := 0;
    for p := 0 to n
      invariant |out| == p
      invariant curSource == WeightCount(specs, p) <= |idxToSrcId|
      invariant forall q :: 0 <= q < p ==> PopulationRows(specs, idxToSrcId, conductanceBased[q], q, out[q])
    {
      var rows := SamplerLoop(specs[p].weights, idxToSrcId, curSource, 0, conductanceBased[p]);
      WeightCountStep(specs, p);
      if rows.Err? {
        WeightCountMonotone(specs, p + 1, n);
        return Err(rows.error);
      }
      assert PopulationRows(specs, idxToSrcId, conductanceBased[p], p, rows.value);
      out := out + [rows.value];
      curSource := curSource + |specs[p].weights|;
    }
    r := Ok(out);
  }

  /**
   * `lists` is what population `p` receives: the rows of its sampler's
   * weights, all to neuron 0, with sources picked from the counter's
   * position where sampler `p` begins.
   */
  predicate PopulationRows(specs: seq<PoissonSpec>, inv: seq<nat>, cb: bool, p: nat, lists: (seq<Conn>, seq<Conn>))
    requires p < |specs|
  {
    var ws := specs[p].weights;
    && WeightCount(specs, p) + |ws| <= |inv|
    && lists == (SamplerRows(ws, inv, WeightCount(specs, p), 0, false, cb, |ws|),
                 SamplerRows(ws, inv, WeightCount(specs, p), 0, true, cb, |ws|))
  }

  /**
   * When every sampler has as many weights as rates, the counter pairs
   * sampler `i`'s weight `j` with a source of sampler `i`'s own rate `j`.
   */
  lemma CounterPairsOwnRate(specs: seq<PoissonSpec>, i: nat, j: nat)
    requires forall q :: 0 <= q < |specs| ==> |specs[q].rates| == |specs[q].weights|
    requires i < |specs| && j < |specs[i].weights|
    ensures WeightCount(specs, i) + j < |Inverse(AllRates(specs))|
    ensures Unique(AllRates(specs))[Inverse(AllRates(specs))[WeightCount(specs, i) + j]] == specs[i].rates[j]
  {
    CountsAgree(specs, i);
    RateAt(specs, i, j);
  }

  /**
   * What `create_nest_optimized` connects when every sampler has as many
   * weights as rates: weight `j` of sampler `i` is listed in the
   * excitatory list when positive and in the inhibitory list otherwise,
   * fed by a source of sampler `i`'s own rate `j`.
   */
  lemma NestOptimizedCovers(specs: seq<PoissonSpec>, cb: bool)
    requires forall q :: 0 <= q < |specs| ==> |specs[q].rates| == |specs[q].weights|
    ensures WeightCount(specs, |specs|) <= |Inverse(AllRates(specs))|
    ensures forall i: nat :: i <= |specs| ==> WeightCount(specs, i) <= |Inverse(AllRates(specs))|
    ensures forall i: nat, j: nat :: i < |specs| && j < |specs[i].weights| ==>
      var row := WeightRow(specs, Inverse(AllRates(specs)), cb, i, j);
      row in AllSamplerRows(specs, Inverse(AllRates(specs)), specs[i].weights[j] > 0.0, cb, |specs|) &&
      Unique(AllRates(specs))[row.pre] == specs[i].rates[j]
  {
    var inv := Inverse(AllRates(specs));
    var n := |specs|;
    CountsAgree(specs, n);
    forall i: nat | i <= n
      ensures WeightCount(specs, i) <= |inv|
    {
      WeightCountMonotone(specs, i, n);
    }
    forall i: nat, j: nat | i < n && j < |specs[i].weights|
      ensures WeightRow(specs, inv, cb, i, j) in AllSamplerRows(specs, inv, specs[i].weights[j] > 0.0, cb, n)
      ensures Unique(AllRates(specs))[WeightRow(specs, inv, cb, i, j).pre] == specs[i].rates[j]
    {
      NestOptimizedCoversOne(specs, cb, i, j);
    }
  }

  /** One weight's row: in the list of its sign, from a source of its own rate. */
  lemma NestOptimizedCoversOne(specs: seq<PoissonSpec>, cb: bool, i: nat, j: nat)
    requires forall q :: 0 <= q < |specs| ==> |specs[q].rates| == |specs[q].weights|
    requires i < |specs| && j < |specs[i].weights|
    ensures WeightCount(specs, |specs|) <= |Inverse(AllRates(specs))|
    ensures WeightCount(specs, i + 1) <= |Inverse(AllRates(specs))|
    ensures WeightRow(specs, Inverse(AllRates(specs)), cb, i, j) in
      AllSamplerRows(specs, Inverse(AllRates(specs)), specs[i].weights[j] > 0.0, cb, |specs|)
    ensures Unique(AllRates(specs))[WeightRow(specs, Inverse(AllRates(specs)), cb, i, j).pre] == specs[i].rates[j]
  {
    NestOptimizedListed(specs, cb, i, j);
    NestOptimizedRowRate(specs, cb, i, j);
  }

  /** With as many weights as rates, the counter stays inside the rates and lists the weight by its sign. */
  lemma NestOptimizedListed(specs: seq<PoissonSpec>, cb: bool, i: nat, j: nat)
    requires forall q :: 0 <= q < |specs| ==> |specs[q].rates| == |specs[q].weights|
    requires i < |specs| && j < |specs[i].weights|
    ensures WeightCount(specs, |specs|) <= |Inverse(AllRates(specs))|
    ensures WeightCount(specs, i + 1) <= |Inverse(AllRates(specs))|
    ensures WeightRow(specs, Inverse(AllRates(specs)), cb, i, j) in
      AllSamplerRows(specs, Inverse(AllRates(specs)), specs[i].weights[j] > 0.0, cb, |specs|)
  {
    var inv := Inverse(AllRates(specs));
    CountsAgree(specs, |specs|);
    AllSamplerRowsCovers(specs, inv, cb, |specs|, i, j);
  }

  /** The source of a weight's row carries the sampler's own rate for that weight. */
  lemma NestOptimizedRowRate(specs: seq<PoissonSpec>, cb: bool, i: nat, j: nat)
    requires forall q :: 0 <= q < |specs| ==> |specs[q].rates| == |specs[q].weights|
    requires i < |specs| && j < |specs[i].weights| && WeightCount(specs, i + 1) <= |Inverse(AllRates(specs))|
    ensures Unique(AllRates(specs))[WeightRow(specs, Inverse(AllRates(specs)), cb, i, j).pre] == specs[i].rates[j]
  {
    CounterPairsOwnRate(specs, i, j);
    assert WeightRow(specs, Inverse(AllRates(specs)), cb, i, j).pre ==
      Inverse(AllRates(specs))[WeightCount(specs, i) + j];
  }

  /**
   * The converse: with as many weights as rates per sampler, every row of
   * the list of sign `exc` is the row of a weight of that sign.
   */
  lemma NestOptimizedSound(specs: seq<PoissonSpec>, cb: bool, exc: bool)
    requires forall q :: 0 <= q < |specs| ==> |specs[q].rates| == |specs[q].weights|
    ensures WeightCount(specs, |specs|) <= |Inverse(AllRates(specs))|
    ensures forall row :: row in AllSamplerRows(specs, Inverse(AllRates(specs)), exc, cb, |specs|) ==>
      RowOfWeight(specs, Inverse(AllRates(specs)), cb, exc, |specs|, row)
  {
    CountsAgree(specs, |specs|);
    AllSamplerRowsSound(specs, Inverse(AllRates(specs)), exc, cb, |specs|);
  }

  // ---------------------------------------------------------------------
  // Fixed spike trains
  // ---------------------------------------------------------------------

  /** A sampler's fixed-train configuration: weight `i` belongs to the spikes whose id is `i`. */
  datatype TrainSpec = TrainSpec(weights: seq<real>, spikeTimes: seq<real>, spikeIds: seq<int>)

  /**
   * `spike_times[spike_ids == i]`: the spike times tagged `i`, in order. A
   * mask of another length than the times raises `IndexError`.
   */
  function TrainOf(times: seq<real>, ids: seq<int>, i: int): (r: Result<seq<real>>)
    ensures r.Ok? <==> |times| == |ids|
    ensures r.Err? ==> r.error == IndexError
    ensures r.Ok? ==> r.value == Tagged(times, ids, i, |times|)
  {
    if |times| != |ids| then Err(IndexError) else Ok(Tagged(times, ids, i, |times|))
  }

  /** The times among the first `m` whose id is `i`. */
  function Tagged(times: seq<real>, ids: seq<int>, i: int, m: nat): (train: seq<real>)
    requires m <= |times| == |ids|
    ensures |train| <= m
    ensures forall t :: t in train ==> exists k :: 0 <= k < m && ids[k] == i && times[k] == t
    decreases m
  {
    if m == 0 then []
    else Tagged(times, ids, i, m - 1) + (if ids[m - 1] == i then [times[m - 1]] else [])
  }

  /** The trains already given a source, one per distinct train. */
  class TrainStore {
    var trains: seq<seq<real>>

    ghost predicate Valid()
      reads this
    {
      forall a, b :: 0 <= a < b < |trains| ==> trains[a] != trains[b]
    }

    constructor ()
      ensures Valid() && trains == []
    {
      trains := [];
    }

    /**
     * `get_index`: the index of the stored train equal to `st`; a train
     * not stored yet is appended and gets the next index.
     */
    method GetIndex(st: seq<real>) returns (i: nat)
      requires Valid()
      modifies this
      ensures Valid()
      ensures i < |trains| && trains[i] == st
      ensures st in old(trains) ==> trains == old(trains)
      ensures st !in old(trains) ==> trains == old(trains) + [st] && i == |old(trains)|
    {
      for k := 0 to |trains|
        invariant forall a :: 0 <= a < k ==> trains[a] != st
      {
        if trains[k] == st {
          return k;
        }
      }
      trains := trains + [st];
      i := |trains| - 1;
    }
  }

  /** One connection the source list asks for: target sampler, weight and spike train. */
  datatype Planned = Planned(post: nat, weight: real, train: seq<real>)

  /** The mask fits the spike times, as far as the weights need a mask. */
  predicate MaskFits(spec: TrainSpec) {
    |spec.weights| == 0 || |spec.spikeTimes| == |spec.spikeIds|
  }

  predicate MasksFit(specs: seq<TrainSpec>) {
    forall j :: 0 <= j < |specs| ==> MaskFits(specs[j])
  }

  /** The connections a list of samplers asks for: sampler by sampler, weight by weight. */
  function PerSamplerPlan(specs: seq<TrainSpec>): (plan: seq<Planned>)
    requires MasksFit(specs)
  {
    if |specs| == 0 then []
    else
      var n := |specs| - 1;
      assert MasksFit(specs[..n]) by {
        forall j | 0 <= j < n
          ensures MaskFits(specs[..n][j])
        {
          assert specs[..n][j] == specs[j];
        }
      }
      PerSamplerPlan(specs[..n]) + SamplerPlan(specs[n], n, |specs[n].weights|)
  }

  function SamplerPlan(spec: TrainSpec, j: nat, m: nat): (plan: seq<Planned>)
    requires m <= |spec.weights| && (m == 0 || |spec.spikeTimes| == |spec.spikeIds|)
    ensures |plan| == m
  {
    if m == 0 then []
    else
      SamplerPlan(spec, j, m - 1) +
        [Planned(j, spec.weights[m - 1], Tagged(spec.spikeTimes, spec.spikeIds, m - 1, |spec.spikeTimes|))]
  }

  /**
   * `conns` carries out `plan` over `trains`: same targets and weights, and
   * each source index names the train the plan asks for.
   */
  predicate Realizes(conns: seq<Conn>, plan: seq<Planned>, trains: seq<seq<real>>) {
    && |conns| == |plan|
    && forall k :: 0 <= k < |conns| ==>
         && conns[k].post == plan[k].post
         && conns[k].weight == plan[k].weight
         && conns[k].pre < |trains|
         && trains[conns[k].pre] == plan[k].train
  }

  /**
   * The connection list of `create_connect_regular` for a list of samplers,
   * each with its own trains: one row per sampler and weight, and one
   * source per distinct train, each of which feeds some row.
   */
  method PerSamplerConnList(specs: seq<TrainSpec>) returns (r: Result<(seq<Conn>, seq<seq<real>>)>)
    ensures r.Ok? <==> MasksFit(specs)
    ensures r.Err? ==> r.error == IndexError
    ensures r.Ok? ==> Realizes(r.value.0, PerSamplerPlan(specs), r.value.1)
    ensures r.Ok? ==> forall a, b :: 0 <= a < b < |r.value.1| ==> r.value.1[a] != r.value.1[b]
    ensures r.Ok? ==> forall t :: 0 <= t < |r.value.1| ==> ListsSource(r.value.0, t)
  {
    var store := new TrainStore();
    var conns: seq<Conn> := [];
    for j := 0 to |specs|
      invariant store.Valid() && MasksFit(specs[..j])
      invariant Realizes(conns, PerSamplerPlan(specs[..j]), store.trains)
      invariant forall t :: 0 <= t < |store.trains| ==> ListsSource(conns, t)
    {
      var sc := specs[j];
      if |sc.weights| > 0 && |sc.spikeTimes| != |sc.spikeIds| {
        assert !MasksFit(specs) by {
          assert specs[j] == sc;
        }
        return Err(IndexError);
      }
      assert specs[..j + 1][..j] == specs[..j];
      assert MasksFit(specs[..j + 1]) by {
        assert forall q :: 0 <= q < j ==> specs[..j + 1][q] == specs[..j][q];
      }
      ghost var done := PerSamplerPlan(specs[..j]);
      assert PerSamplerPlan(specs[..j + 1]) == done + SamplerPlan(sc, j, |sc.weights|);
      for i := 0 to |sc.weights|
        invariant store.Valid()
        invariant Realizes(conns, done + SamplerPlan(sc, j, i), store.trains)
        invariant forall t :: 0 <= t < |store.trains| ==> ListsSource(conns, t)
      {
        var train := TrainOf(sc.spikeTimes, sc.spikeIds, i);
        ghost var before := store.trains;
        var sourceId := store.GetIndex(train.value);
        var c := Conn(sourceId, j, sc.weights[i]);
        AppendRealizes(conns, done + SamplerPlan(sc, j, i), before, store.trains, c, Planned(j, sc.weights[i], train.value));
        assert done + SamplerPlan(sc, j, i + 1) == (done + SamplerPlan(sc, j, i)) + [Planned(j, sc.weights[i], train.value)];
        ListsSourceGrows(conns, before, store.trains, c);
        conns := conns + [c];
      }
    }
    assert specs[..|specs|] == specs;
    r := Ok((conns, store.trains));
  }

  /** Appending a row that carries out the next planned connection keeps the list in step with the plan. */
  lemma AppendRealizes(conns: seq<Conn>, plan: seq<Planned>, before: seq<seq<real>>, after: seq<seq<real>>, c: Conn, p: Planned)
    requires Realizes(conns, plan, before)
    requires |before| <= |after| && after[..|before|] == before
    requires c.pre < |after| && after[c.pre] == p.train && c.post == p.post && c.weight == p.weight
    ensures Realizes(conns + [c], plan + [p], after)
  {
    forall k | 0 <= k < |conns|
      ensures after[conns[k].pre] == plan[k].train
    {
      assert after[conns[k].pre] == after[..|before|][conns[k].pre];
    }
  }

  /** Storing one more train keeps the earlier rows pointing at their trains. */
  lemma RealizesGrows(conns: seq<Conn>, plan: seq<Planned>, before: seq<seq<real>>, after: seq<seq<real>>)
    requires Realizes(conns, plan, before)
    requires |before| <= |after| && after[..|before|] == before
    ensures Realizes(conns, plan, after)
  {
    forall k | 0 <= k < |conns|
      ensures after[conns[k].pre] == plan[k].train
    {
      assert after[conns[k].pre] == after[..|before|][conns[k].pre];
    }
  }

  /** Every stored train feeds some row, also after storing the train of a new row. */
  lemma ListsSourceGrows(conns: seq<Conn>, before: seq<seq<real>>, after: seq<seq<real>>, c: Conn)
    requires forall t :: 0 <= t < |before| ==> ListsSource(conns, t)
    requires |before| <= |after| <= |before| + 1
    requires |after| > |before| ==> c.pre == |before|
    ensures forall t :: 0 <= t < |after| ==> ListsSource(conns + [c], t)
  {
    forall t | 0 <= t < |after|
      ensures ListsSource(conns + [c], t)
    {
      if t < |before| {
        assert ListsSource(conns, t);
        var k :| 0 <= k < |conns| && conns[k].pre == t;
        assert (conns + [c])[k] == conns[k];
      } else {
        assert (conns + [c])[|conns|].pre == t;
      }
    }
  }

  /** The connections one shared configuration asks for: weight by weight, every sampler gets the weight's train. */
  function SharedPlan(spec: TrainSpec, numSamplers: nat, m: nat): (plan: seq<Planned>)
    requires m <= |spec.weights| && (m == 0 || |spec.spikeTimes| == |spec.spikeIds|)
    ensures |plan| == m * numSamplers
  {
    if m == 0 then []
    else
      var i := m - 1;
      var train := Tagged(spec.spikeTimes, spec.spikeIds, i, |spec.spikeTimes|);
      SharedPlan(spec, numSamplers, i) + seq(numSamplers, j requires 0 <= j => Planned(j, spec.weights[i], train))
  }

  /**
   * The connection list of `create_connect_regular` for a population whose
   * samplers all share one configuration: for each weight, one row per
   * sampler, all from the source of that weight's train.
   */
  method SharedConnList(spec: TrainSpec, numSamplers: nat) returns (r: Result<(seq<Conn>, seq<seq<real>>)>)
    ensures r.Ok? <==> MaskFits(spec)
    ensures r.Err? ==> r.error == IndexError
    ensures r.Ok? ==> Realizes(r.value.0, SharedPlan(spec, numSamplers, |spec.weights|), r.value.1)
    ensures r.Ok? ==> forall a, b :: 0 <= a < b < |r.value.1| ==> r.value.1[a] != r.value.1[b]
  {
    if |spec.weights| > 0 && |spec.spikeTimes| != |spec.spikeIds| {
      return Err(IndexError);
    }
    var store := new TrainStore();
    var conns: seq<Conn> := [];
    for i := 0 to |spec.weights|
      invariant store.Valid()
      invariant Realizes(conns, SharedPlan(spec, numSamplers, i), store.trains)
    {
      var train := TrainOf(spec.spikeTimes, spec.spikeIds, i);
      ghost var before := store.trains;
      var sourceId := store.GetIndex(train.value);
      RealizesGrows(conns, SharedPlan(spec, numSamplers, i), before, store.trains);
      var p := Planned(0, spec.weights[i], train.value);
      ghost var done := SharedPlan(spec, numSamplers, i);
      ghost var trains := store.trains;
      for j := 0 to numSamplers
        invariant store.trains == trains
        invariant Realizes(conns, done + seq(j, q requires 0 <= q => p.(post := q)), store.trains)
      {
        AppendRealizes(conns, done + seq(j, q requires 0 <= q => p.(post := q)), store.trains, store.trains,
          Conn(sourceId, j, spec.weights[i]), p.(post := j));
        assert done + seq(j + 1, q requires 0 <= q => p.(post := q)) ==
          (done + seq(j, q requires 0 <= q => p.(post := q))) + [p.(post := j)];
        conns := conns + [Conn(sourceId, j, spec.weights[i])];
      }
      assert done + seq(numSamplers, q requires 0 <= q => p.(post := q)) == SharedPlan(spec, numSamplers, i + 1);
    }
    r := Ok((conns, store.trains));
  }

  /**
   * With distinct stored trains, two rows share a source exactly when the
   * plan gives them the same spike train: identical trains are created once.
   */
  lemma SharedSourceIffSameTrain(conns: seq<Conn>, plan: seq<Planned>, trains: seq<seq<real>>, k: nat, l: nat)
    requires Realizes(conns, plan, trains)
    requires forall a, b :: 0 <= a < b < |trains| ==> trains[a] != trains[b]
    requires k < |conns| && l < |conns|
    ensures conns[k].pre == conns[l].pre <==> plan[k].train == plan[l].train
  {
    assert trains[conns[k].pre] == plan[k].train && trains[conns[l].pre] == plan[l].train;
  }

  // ---------------------------------------------------------------------
  // Splitting a connection list by sign
  // ---------------------------------------------------------------------

  /**
   * One list of `connect_sources_regular` over the first `m` rows:
   * `exc` keeps the rows with weight at least zero, otherwise those with
   * negative weight. With `only == Some(j)` just the rows for sampler `j`
   * are kept, retargeted to neuron 0 of its own population.
   */
  function RegularRows(connList: seq<Conn>, cb: bool, exc: bool, only: Option<nat>, m: nat): (rows: seq<Conn>)
    requires m <= |connList|
    ensures |rows| <= m
    ensures only.Some? ==> forall k :: 0 <= k < |rows| ==> rows[k].post == 0
    ensures cb ==> forall k :: 0 <= k < |rows| ==> rows[k].weight >= 0.0
    decreases m
  {
    if m == 0 then []
    else
      var c := connList[m - 1];
      var kept := (c.weight >= 0.0) == exc && (only.None? || c.post == only.value);
      var post := if only.Some? then 0 else c.post;
      RegularRows(connList, cb, exc, only, m - 1) + (if kept then [Conn(c.pre, post, StoredWeight(c.weight, cb))] else [])
  }

  /** The rows meant for `only` among the first `m`. */
  function Addressed(connList: seq<Conn>, only: Option<nat>, m: nat): nat
    requires m <= |connList|
  {
    if m == 0 then 0
    else Addressed(connList, only, m - 1) + (if only.None? || connList[m - 1].post == only.value then 1 else 0)
  }

  /**
   * The two lists split the rows meant for a population between them, each
   * row going to exactly one; a single population receives every row.
   */
  lemma {:induction false} RegularSplit(connList: seq<Conn>, cb: bool, only: Option<nat>, m: nat)
    requires m <= |connList|
    ensures |RegularRows(connList, cb, true, only, m)| + |RegularRows(connList, cb, false, only, m)| == Addressed(connList, only, m)
    ensures only.None? ==> Addressed(connList, only, m) == m
  {
    if m > 0 {
      RegularSplit(connList, cb, only, m - 1);
    }
  }

  /**
   * A row is carried over into the list its sign picks, with its source,
   * its target (0 for a population of its own) and its stored weight.
   */
  lemma {:induction false} RegularCovers(connList: seq<Conn>, cb: bool, only: Option<nat>, m: nat, i: nat)
    requires i < m <= |connList|
    requires only.None? || connList[i].post == only.value
    ensures var c := connList[i];
      Conn(c.pre, if only.Some? then 0 else c.post, StoredWeight(c.weight, cb)) in
        RegularRows(connList, cb, c.weight >= 0.0, only, m)
  {
    if i < m - 1 {
      RegularCovers(connList, cb, only, m - 1, i);
    }
  }

  /** `connect_sources_regular` with one population for all samplers. */
  function ConnectSourcesRegular(connList: seq<Conn>, cb: bool): (lists: (seq<Conn>, seq<Conn>))
    ensures |lists.0| + |lists.1| == |connList|
  {
    RegularSplit(connList, cb, None, |connList|);
    (RegularRows(connList, cb, false, None, |connList|), RegularRows(connList, cb, true, None, |connList|))
  }

  /** `connect_sources_regular` with one population per sampler: population `j` gets sampler `j`'s rows. */
  function ConnectSourcesPerPopulation(connList: seq<Conn>, conductanceBased: seq<bool>)
    : (lists: seq<(seq<Conn>, seq<Conn>)>)
    ensures |lists| == |conductanceBased|
    ensures forall j :: 0 <= j < |lists| ==> |lists[j].0| + |lists[j].1| == Addressed(connList, Some(j), |connList|)
  {
    RegularSplitEach(connList, conductanceBased);
    seq(|conductanceBased|, j requires 0 <= j < |conductanceBased| =>
      (RegularRows(connList, conductanceBased[j], false, Some(j), |connList|),
       RegularRows(connList, conductanceBased[j], true, Some(j), |connList|)))
  }

  /**
   * A zero weight is excitatory when a fixed train is connected but
   * inhibitory on the NEST-optimised Poisson path.
   */
  lemma ZeroWeightSides()
    ensures ConnectSourcesRegular([Conn(0, 0, 0.0)], false) == ([], [Conn(0, 0, 0.0)])
    ensures SamplerRows([0.0], [0], 0, 0, false, false, 1) == [Conn(0, 0, 0.0)]
  {
    assert RegularRows([Conn(0, 0, 0.0)], false, true, None, 1) == [Conn(0, 0, 0.0)];
  }

  lemma RegularSplitEach(connList: seq<Conn>, conductanceBased: seq<bool>)
    ensures forall j :: 0 <= j < |conductanceBased| ==>
      |RegularRows(connList, conductanceBased[j], false, Some(j), |connList|)| +
      |RegularRows(connList, conductanceBased[j], true, Some(j), |connList|)| == Addressed(connList, Some(j), |connList|)
  {
    forall j | 0 <= j < |conductanceBased|
      ensures |RegularRows(connList, conductanceBased[j], false, Some(j), |connList|)| +
        |RegularRows(connList, conductanceBased[j], true, Some(j), |connList|)| == Addressed(connList, Some(j), |connList|)
    {
      RegularSplit(connList, conductanceBased[j], Some(j), |connList|);
    }
  }
}
