/**
 * `get_all_source_parameters` of utils.py: the rates and weights of the
 * background sources, split into an excitatory and an inhibitory set of
 * preallocated arrays that two counters fill in source order.
 */
module SourceParams {
  /** The fields of a source configuration record that the split reads. */
  datatype SourceConfig = SourceConfig(rate: real, weight: real, isExc: bool)

  /** The excitatory sources, in source order. */
  function ExcSources(s: seq<SourceConfig>): (e: seq<SourceConfig>)
    ensures forall k :: 0 <= k < |e| ==> e[k].isExc
  {
    if |s| == 0 then []
    else ExcSources(s[..|s| - 1]) + (if s[|s| - 1].isExc then [s[|s| - 1]] else [])
  }

  /** The remaining, inhibitory sources, in source order. */
  function InhSources(s: seq<SourceConfig>): (e: seq<SourceConfig>)
    ensures forall k :: 0 <= k < |e| ==> !e[k].isExc
  {
    if |s| == 0 then []
    else InhSources(s[..|s| - 1]) + (if s[|s| - 1].isExc then [] else [s[|s| - 1]])
  }

  function Rates(s: seq<SourceConfig>): (r: seq<real>)
    ensures |r| == |s| && forall k :: 0 <= k < |s| ==> r[k] == s[k].rate
  {
    seq(|s|, k requires 0 <= k < |s| => s[k].rate)
  }

  function Weights(s: seq<SourceConfig>): (w: seq<real>)
    ensures |w| == |s| && forall k :: 0 <= k < |s| ==> w[k] == s[k].weight
  {
    seq(|s|, k requires 0 <= k < |s| => s[k].weight)
  }

  /**
   * The two classes split the sources: their sizes add up to the number of
   * sources and together they hold every source exactly as often as the
   * input does.
   */
  lemma {:induction false} SplitIsPartition(s: seq<SourceConfig>)
    ensures |ExcSources(s)| + |InhSources(s)| == |s|
    ensures multiset(ExcSources(s)) + multiset(InhSources(s)) == multiset(s)
  {
    if |s| > 0 {
      var init, x := s[..|s| - 1], s[|s| - 1];
      assert s == init + [x];
      SplitIsPartition(init);
      SplitStep(init, x);
      UnionStep(ExcSources(init), InhSources(init), init, x);
    }
  }

  /** The classes of `s + [x]` are those of `s` with `x` appended to its own class. */
  lemma SplitStep(s: seq<SourceConfig>, x: SourceConfig)
    ensures ExcSources(s + [x]) == ExcSources(s) + (if x.isExc then [x] else [])
    ensures InhSources(s + [x]) == InhSources(s) + (if x.isExc then [] else [x])
  {
    assert (s + [x])[..|s|] == s;
  }

  lemma UnionStep(e: seq<SourceConfig>, h: seq<SourceConfig>, s: seq<SourceConfig>, x: SourceConfig)
    requires multiset(e) + multiset(h) == multiset(s)
    ensures multiset(e + [x]) + multiset(h) == multiset(s + [x])
    ensures multiset(e) + multiset(h + [x]) == multiset(s + [x])
  {
  }

  lemma SplitLength(s: seq<SourceConfig>)
    ensures |InhSources(s)| == |s| - |ExcSources(s)|
  {
    SplitIsPartition(s);
  }

  /**
   * `get_all_source_parameters`: returns `(rates_exc, rates_inh,
   * weights_exc, weights_inh)`; every slot of the four arrays is written once,
   * by the counter of its class.
   */
  method GetAllSourceParameters(sources: seq<SourceConfig>)
    returns (ratesExc: array<real>, ratesInh: array<real>, weightsExc: array<real>, weightsInh: array<real>)
    ensures fresh(ratesExc) && fresh(ratesInh) && fresh(weightsExc) && fresh(weightsInh)
    ensures ratesExc.Length == weightsExc.Length == |ExcSources(sources)|
    ensures ratesInh.Length == weightsInh.Length == |sources| - |ExcSources(sources)|
    ensures ratesExc[..] == Rates(ExcSources(sources)) && weightsExc[..] == Weights(ExcSources(sources))
    ensures ratesInh[..] == Rates(InhSources(sources)) && weightsInh[..] == Weights(InhSources(sources))
  {
    SplitLength(sources);
    var numSourcesExc := |ExcSources(sources)|;
    var numSourcesInh := |sources| - numSourcesExc;
    ratesExc := new real[numSourcesExc];
    weightsExc := new real[numSourcesExc];
    ratesInh := new real[numSourcesInh];
    weightsInh := new real[numSourcesInh];
    var iExc, iInh := 0, 0;
    ghost var exc: seq<SourceConfig> := [];
    ghost var inh: seq<SourceConfig> := [];
    for k := 0 to |sources|
      invariant exc == ExcSources(sources[..k]) && inh == InhSources(sources[..k])
      invariant iExc == |exc| <= numSourcesExc && iInh == |inh| <= numSourcesInh
      invariant Holds(ratesExc, weightsExc, iExc, exc)
      invariant Holds(ratesInh, weightsInh, iInh, inh)
    {
      var src := sources[k];
      StepSplit(sources, k);
      if src.isExc {
        Store(ratesExc, weightsExc, iExc, exc, src);
        iExc := iExc + 1;
        exc := exc + [src];
      } else {
        Store(ratesInh, weightsInh, iInh, inh, src);
        iInh := iInh + 1;
        inh := inh + [src];
      }
    }
    assert sources[..|sources|] == sources;
    assert ratesExc[..] == ratesExc[..iExc] && weightsExc[..] == weightsExc[..iExc];
    assert ratesInh[..] == ratesInh[..iInh] && weightsInh[..] == weightsInh[..iInh];
  }

  /** The first `n` slots of a class's two arrays hold the rates and weights of `cls`. */
  ghost predicate Holds(rates: array<real>, weights: array<real>, n: nat, cls: seq<SourceConfig>)
    reads rates, weights
  {
    n <= rates.Length && n <= weights.Length && rates[..n] == Rates(cls) && weights[..n] == Weights(cls)
  }

  /** Writes the next source of one class at its counter's slot. */
  method Store(rates: array<real>, weights: array<real>, i: nat, ghost cls: seq<SourceConfig>, src: SourceConfig)
    requires rates != weights && i < rates.Length && i < weights.Length
    requires Holds(rates, weights, i, cls)
    modifies rates, weights
    ensures Holds(rates, weights, i + 1, cls + [src])
  {
    rates[i] := src.rate;
    weights[i] := src.weight;
    assert rates[..i + 1] == rates[..i] + [src.rate];
    assert weights[..i + 1] == weights[..i] + [src.weight];
    assert Rates(cls + [src]) == Rates(cls) + [src.rate];
    assert Weights(cls + [src]) == Weights(cls) + [src.weight];
  }

  /** One step of the loop: the classes of a prefix grow by the next source. */
  lemma StepSplit(s: seq<SourceConfig>, k: nat)
    requires k < |s|
    ensures ExcSources(s[..k + 1]) == ExcSources(s[..k]) + (if s[k].isExc then [s[k]] else [])
    ensures InhSources(s[..k + 1]) == InhSources(s[..k]) + (if s[k].isExc then [] else [s[k]])
    ensures |ExcSources(s[..k + 1])| <= |ExcSources(s)| && |InhSources(s[..k + 1])| <= |InhSources(s)|
  {
    assert s[..k + 1][..k] == s[..k];
    ExcPrefixBound(s, k + 1);
  }

  /** A prefix has no more excitatory and no more inhibitory sources than the whole. */
  lemma {:induction false} ExcPrefixBound(s: seq<SourceConfig>, k: nat)
    requires k <= |s|
    ensures |ExcSources(s[..k])| <= |ExcSources(s)|
    ensures |InhSources(s[..k])| <= |InhSources(s)|
  {
    if k < |s| {
      var init := s[..|s| - 1];
      assert s[..k] == init[..k];
      ExcPrefixBound(init, k);
    } else {
      assert s[..k] == s;
    }
  }
}
