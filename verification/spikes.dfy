/**
 * Merging per-neuron spike trains into one time-ordered event stream:
 * `get_ordered_spike_idx` (sbs/utils.py and its copy in utils.py) and the
 * pre-processing that `get_pairwise_correlations` does before it hands the
 * merged stream to the compiled correlation kernel.
 */
module Spikes {
  import opened Wrappers

  /** One record of the ordered spike array: the neuron `id` and the spike time `t`. */
  datatype Spike = Spike(id: nat, t: real)

  /** Total number of spikes, `sum(len(st) for st in spiketrains)`. */
  function TotalSpikes(trains: seq<seq<real>>): nat {
    if |trains| == 0 then 0 else TotalSpikes(trains[..|trains| - 1]) + |trains[|trains| - 1]|
  }

  /** The records of train `i`, in the order the train holds them. */
  function Tagged(i: nat, st: seq<real>): (r: seq<Spike>)
    ensures |r| == |st|
    ensures forall k :: 0 <= k < |st| ==> r[k] == Spike(i, st[k])
  {
    seq(|st|, k requires 0 <= k < |st| => Spike(i, st[k]))
  }

  /** The unsorted record array the cursor fill produces: train 0, then train 1, ... */
  function Flatten(trains: seq<seq<real>>): seq<Spike> {
    if |trains| == 0 then [] else Flatten(trains[..|trains| - 1]) + Tagged(|trains| - 1, trains[|trains| - 1])
  }

  predicate SortedByTime(s: seq<Spike>) {
    forall i, j :: 0 <= i < j < |s| ==> s[i].t <= s[j].t
  }

  /** Number of records of neuron `id` in `s`. */
  function CountId(s: seq<Spike>, id: nat): nat {
    if |s| == 0 then 0 else CountId(s[..|s| - 1], id) + (if s[|s| - 1].id == id then 1 else 0)
  }

  lemma {:induction false} FlattenLength(trains: seq<seq<real>>)
    ensures |Flatten(trains)| == TotalSpikes(trains)
  {
    if |trains| > 0 {
      FlattenLength(trains[..|trains| - 1]);
    }
  }

  lemma {:induction false} TotalSpikesPrefix(trains: seq<seq<real>>, i: nat)
    requires i <= |trains|
    ensures TotalSpikes(trains[..i]) <= TotalSpikes(trains)
  {
    if i < |trains| {
      var init := trains[..|trains| - 1];
      assert trains[..i] == init[..i];
      TotalSpikesPrefix(init, i);
    } else {
      assert trains[..i] == trains;
    }
  }

  /**
   * The flattened records hold, for every neuron `i` and time `t`, exactly as
   * many records `(i, t)` as train `i` holds copies of `t`, and none for
   * neurons outside the list.
   */
  lemma {:induction false} FlattenContents(trains: seq<seq<real>>, i: nat, t: real)
    ensures multiset(Flatten(trains))[Spike(i, t)] == if i < |trains| then multiset(trains[i])[t] else 0
  {
    if |trains| > 0 {
      var n := |trains| - 1;
      var init := trains[..n];
      FlattenContents(init, i, t);
      TaggedContents(n, trains[n], i, t);
      assert Flatten(trains) == Flatten(init) + Tagged(n, trains[n]);
      if i < n {
        assert init[i] == trains[i];
      }
    }
  }

  lemma {:induction false} TaggedContents(n: nat, st: seq<real>, i: nat, t: real)
    ensures multiset(Tagged(n, st))[Spike(i, t)] == if i == n then multiset(st)[t] else 0
  {
    if |st| > 0 {
      var k := |st| - 1;
      TaggedContents(n, st[..k], i, t);
      assert Tagged(n, st) == Tagged(n, st[..k]) + [Spike(n, st[k])];
      assert st == st[..k] + [st[k]];
    }
  }

  lemma {:induction false} CountIdAppend(a: seq<Spike>, b: seq<Spike>, id: nat)
    ensures CountId(a + b, id) == CountId(a, id) + CountId(b, id)
  {
    if |b| > 0 {
      var k := |b| - 1;
      assert (a + b)[..|a + b| - 1] == a + b[..k];
      CountIdAppend(a, b[..k], id);
    } else {
      assert a + b == a;
    }
  }

  lemma {:induction false} CountIdTagged(n: nat, st: seq<real>, id: nat)
    ensures CountId(Tagged(n, st), id) == if id == n then |st| else 0
  {
    if |st| > 0 {
      var k := |st| - 1;
      assert Tagged(n, st)[..k] == Tagged(n, st[..k]);
      CountIdTagged(n, st[..k], id);
    }
  }

  /** Neuron `i` contributes exactly `len(spiketrains[i])` records. */
  lemma {:induction false} CountIdFlatten(trains: seq<seq<real>>, id: nat)
    ensures CountId(Flatten(trains), id) == if id < |trains| then |trains[id]| else 0
  {
    if |trains| > 0 {
      var n := |trains| - 1;
      var init := trains[..n];
      CountIdFlatten(init, id);
      CountIdAppend(Flatten(init), Tagged(n, trains[n]), id);
      CountIdTagged(n, trains[n], id);
      if id < n {
        assert init[id] == trains[id];
      }
    }
  }

  /** Reordering records does not change how many belong to each neuron. */
  lemma {:induction false} CountIdPermutation(a: seq<Spike>, b: seq<Spike>, id: nat)
    requires multiset(a) == multiset(b)
    ensures CountId(a, id) == CountId(b, id)
    decreases |a|
  {
    if |a| == 0 {
      assert |b| == |multiset(b)| == 0;
    } else {
      var n := |a| - 1;
      var x := a[n];
      assert a == a[..n] + [x];
      assert x in multiset(b);
      var k :| 0 <= k < |b| && b[k] == x;
      var rest := b[..k] + b[k + 1..];
      assert b == b[..k] + [x] + b[k + 1..];
      assert multiset(a) == multiset(a[..n]) + multiset{x};
      assert multiset(b) == multiset(b[..k]) + multiset{x} + multiset(b[k + 1..]);
      assert multiset(rest) == multiset(b[..k]) + multiset(b[k + 1..]);
      assert multiset(a[..n]) == multiset(a) - multiset{x};
      assert multiset(rest) == multiset(b) - multiset{x};
      CountIdPermutation(a[..n], rest, id);
      CountIdAppend(b[..k], [x], id);
      CountIdAppend(b[..k] + [x], b[k + 1..], id);
      CountIdAppend(b[..k], b[k + 1..], id);
      assert [x][..0] == [];
    }
  }

  /** Inserts `x` after every record that is not later than it. */
  function InsertByTime(x: Spike, s: seq<Spike>): (r: seq<Spike>)
    ensures |r| == |s| + 1
  {
    if |s| == 0 then [x]
    else if x.t <= s[0].t then [x] + s
    else [s[0]] + InsertByTime(x, s[1..])
  }

  /** Inserting into a time-sorted sequence keeps it sorted and adds exactly the one record. */
  lemma {:induction false} InsertByTimeSorted(x: Spike, s: seq<Spike>)
    requires SortedByTime(s)
    ensures SortedByTime(InsertByTime(x, s))
    ensures multiset(InsertByTime(x, s)) == multiset(s) + multiset{x}
  {
    if |s| > 0 && s[0].t < x.t {
      var rest := InsertByTime(x, s[1..]);
      InsertByTimeSorted(x, s[1..]);
      assert s == [s[0]] + s[1..];
      assert multiset(s) == multiset{s[0]} + multiset(s[1..]);
      InsertByTimeLowerBound(x, s[1..], s[0].t);
      PrependSorted(s[0], rest);
    } else if |s| > 0 {
      PrependSorted(x, s);
    }
  }

  /** A bound below `x` and below every record of `s` stays below every record after the insertion. */
  lemma {:induction false} InsertByTimeLowerBound(x: Spike, s: seq<Spike>, b: real)
    requires b <= x.t && forall k :: 0 <= k < |s| ==> b <= s[k].t
    ensures forall k :: 0 <= k < |InsertByTime(x, s)| ==> b <= InsertByTime(x, s)[k].t
  {
    if |s| > 0 && s[0].t < x.t {
      InsertByTimeLowerBound(x, s[1..], b);
      var rest := InsertByTime(x, s[1..]);
      assert InsertByTime(x, s) == [s[0]] + rest;
      forall k | 0 <= k < |rest| + 1 ensures b <= ([s[0]] + rest)[k].t {
        if k > 0 {
          assert ([s[0]] + rest)[k] == rest[k - 1];
        }
      }
    }
  }

  /** A record no later than every record of a time-sorted sequence may go in front. */
  lemma PrependSorted(a: Spike, s: seq<Spike>)
    requires SortedByTime(s)
    requires forall k :: 0 <= k < |s| ==> a.t <= s[k].t
    ensures SortedByTime([a] + s)
    ensures multiset([a] + s) == multiset(s) + multiset{a}
  {
    var r := [a] + s;
    forall i, j | 0 <= i < j < |r| ensures r[i].t <= r[j].t {
      assert r[j] == s[j - 1];
      if i > 0 {
        assert r[i] == s[i - 1];
      }
    }
  }

  /**
   * `np.argsort(spikes["t"])` followed by the reindexing. numpy's default
   * sort is not stable, so only the order of times and the contents are
   * promised; this insertion sort is one admissible outcome.
   */
  function SortByTime(s: seq<Spike>): (r: seq<Spike>)
    ensures SortedByTime(r)
    ensures multiset(r) == multiset(s)
    ensures |r| == |s|
  {
    if |s| == 0 then []
    else
      assert s == [s[0]] + s[1..];
      InsertByTimeSorted(s[0], SortByTime(s[1..]));
      InsertByTime(s[0], SortByTime(s[1..]))
  }

  /** `spikes["id"][current:current+len(st)] = i` and the same slice of `"t"` set to `st`. */
  method WriteTrain(spikes: array<Spike>, current: nat, i: nat, st: seq<real>)
    requires current + |st| <= spikes.Length
    modifies spikes
    ensures spikes[..current] == old(spikes[..current])
    ensures spikes[current..current + |st|] == Tagged(i, st)
  {
    for k := 0 to |st|
      invariant spikes[..current] == old(spikes[..current])
      invariant forall m :: 0 <= m < k ==> spikes[current + m] == Spike(i, st[m])
    {
      spikes[current + k] := Spike(i, st[k]);
    }
  }

  /**
   * `get_ordered_spike_idx`: sizes a record array by the total spike count,
   * fills it train by train with a cursor, then orders it by time.
   */
  method OrderedSpikeIdx(trains: seq<seq<real>>) returns (sorted: seq<Spike>)
    ensures |sorted| == TotalSpikes(trains)
    ensures SortedByTime(sorted)
    ensures multiset(sorted) == multiset(Flatten(trains))
  {
    var numSpikes := 0;
    for i := 0 to |trains|
      invariant numSpikes == TotalSpikes(trains[..i])
    {
      assert trains[..i + 1][..i] == trains[..i];
      numSpikes := numSpikes + |trains[i]|;
    }
    assert trains[..|trains|] == trains;
    var spikes := new Spike[numSpikes](_ => Spike(0, 0.0));
    var current := 0;
    for i := 0 to |trains|
      invariant current == TotalSpikes(trains[..i]) <= numSpikes
      invariant spikes[..current] == Flatten(trains[..i])
    {
      var st := trains[i];
      assert trains[..i + 1][..i] == trains[..i];
      TotalSpikesPrefix(trains, i + 1);
      WriteTrain(spikes, current, i, st);
      assert spikes[..current + |st|] == spikes[..current] + spikes[current..current + |st|];
      current := current + |st|;
    }
    assert spikes[..] == spikes[..current];
    FlattenLength(trains);
    sorted := SortByTime(spikes[..]);
  }

  /** The refractory periods argument: one value for all neurons, or one per neuron. */
  datatype TauRefs = TauScalar(x: real) | TauList(xs: seq<real>)

  /** What `get_pairwise_correlations` hands to the compiled correlation kernel. */
  datatype CorrelationInput = CorrelationInput(
    spikeIds: seq<nat>,
    spikeTimes: seq<real>,
    neuronIdx: seq<nat>,
    tauRefs: seq<real>,
    duration: real,
    ignoreUntil: real)

  /**
   * The pre-processing part of `get_pairwise_correlations`: merge the trains
   * into time-ordered ids and times (`np.hstack` refuses an empty list of
   * trains), broadcast a scalar refractory period to every neuron and reject
   * a list of the wrong length.
   */
  method PairwiseCorrelationInput(spikeTimes: seq<seq<real>>, tauRefs: TauRefs, duration: real, ignoreUntil: real)
    returns (r: Result<CorrelationInput>)
    ensures r.Err? <==> |spikeTimes| == 0 || (tauRefs.TauList? && |tauRefs.xs| != |spikeTimes|)
    ensures r.Err? ==> r.error == ValueError
    ensures r.Ok? ==>
      var c := r.value;
      && |c.spikeIds| == |c.spikeTimes| == TotalSpikes(spikeTimes)
      && (forall i, j :: 0 <= i < j < |c.spikeTimes| ==> c.spikeTimes[i] <= c.spikeTimes[j])
      && (forall id :: 0 <= id < |spikeTimes| ==> CountOf(c.spikeIds, id) == |spikeTimes[id]|)
      && multiset(Zip(c.spikeIds, c.spikeTimes)) == multiset(Flatten(spikeTimes))
      && c.neuronIdx == seq(|spikeTimes|, i => i)
      && |c.tauRefs| == |spikeTimes|
      && (tauRefs.TauScalar? ==> forall i :: 0 <= i < |spikeTimes| ==> c.tauRefs[i] == tauRefs.x)
      && (tauRefs.TauList? ==> c.tauRefs == tauRefs.xs)
      && c.duration == duration && c.ignoreUntil == ignoreUntil
  {
    if |spikeTimes| == 0 {
      return Err(ValueError);
    }
    var merged := OrderedSpikeIdx(spikeTimes);
    var ids := seq(|merged|, k requires 0 <= k < |merged| => merged[k].id);
    var times := seq(|merged|, k requires 0 <= k < |merged| => merged[k].t);
    var numNeurons := |spikeTimes|;
    var taus;
    match tauRefs {
      case TauScalar(x) =>
        taus := seq(numNeurons, _ => x);
      case TauList(xs) =>
        if |xs| != numNeurons {
          return Err(ValueError);
        }
        taus := xs;
    }
    assert Zip(ids, times) == merged;
    forall id | 0 <= id < numNeurons ensures CountOf(ids, id) == |spikeTimes[id]| {
      CountOfIds(merged, id);
      CountIdPermutation(merged, Flatten(spikeTimes), id);
      CountIdFlatten(spikeTimes, id);
    }
    r := Ok(CorrelationInput(ids, times, seq(numNeurons, i => i), taus, duration, ignoreUntil));
  }

  /** Pairs up ids and times into records. */
  function Zip(ids: seq<nat>, times: seq<real>): (s: seq<Spike>)
    requires |ids| == |times|
    ensures |s| == |ids|
    ensures forall k :: 0 <= k < |s| ==> s[k] == Spike(ids[k], times[k])
  {
    seq(|ids|, k requires 0 <= k < |ids| => Spike(ids[k], times[k]))
  }

  /** Number of occurrences of `id` in `ids`. */
  function CountOf(ids: seq<nat>, id: nat): nat {
    if |ids| == 0 then 0 else CountOf(ids[..|ids| - 1], id) + (if ids[|ids| - 1] == id then 1 else 0)
  }

  lemma {:induction false} CountOfIds(s: seq<Spike>, id: nat)
    ensures CountOf(seq(|s|, k requires 0 <= k < |s| => s[k].id), id) == CountId(s, id)
  {
    if |s| > 0 {
      var n := |s| - 1;
      assert seq(|s|, k requires 0 <= k < |s| => s[k].id)[..n] == seq(n, k requires 0 <= k < n => s[..n][k].id);
      CountOfIds(s[..n], id);
    }
  }
}
