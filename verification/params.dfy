/**
 * Small dictionary utilities of sbs/utils.py: grouping of element indices by
 * identical parameter values (`group_identical_parameters`), `filter_dict`,
 * the sort key for NEST connection tuples and `check_list_array`.
 */
module Params {
  import opened Wrappers

  /**
   * A parameter value: either one value shared by every element, or a sized
   * sequence holding one value per element.
   */
  datatype Value<V> = Scalar(x: V) | Sized(xs: seq<V>)

  /** One yielded group: the ascending element indices and their shared values. */
  datatype Group<V> = Group(indices: seq<nat>, values: map<string, V>)

  predicate DistinctKeys<V>(ps: seq<(string, Value<V>)>) {
    forall a, b :: 0 <= a < b < |ps| ==> ps[a].0 != ps[b].0
  }

  function KeySet<V>(ps: seq<(string, Value<V>)>): (s: set<string>)
    ensures forall k :: k in s <==> exists j :: 0 <= j < |ps| && ps[j].0 == k
  {
    set j | 0 <= j < |ps| :: ps[j].0
  }

  /** `all_num_elements`: the lengths of the sized values, in key order. */
  function SizedLengths<V>(ps: seq<(string, Value<V>)>): (ls: seq<nat>)
    ensures forall l :: l in ls <==> exists j :: 0 <= j < |ps| && ps[j].1.Sized? && |ps[j].1.xs| == l
    ensures |ls| == 0 ==> forall j :: 0 <= j < |ps| ==> ps[j].1.Scalar?
  {
    if |ps| == 0 then []
    else
      var init := SizedLengths(ps[..|ps| - 1]);
      var last := ps[|ps| - 1].1;
      assert forall j :: 0 <= j < |ps| - 1 ==> ps[..|ps| - 1][j] == ps[j];
      if last.Sized? then init + [|last.xs|] else init
  }

  /** Every sized value has `n` entries. */
  predicate Conforms<V>(ps: seq<(string, Value<V>)>, n: nat) {
    forall j :: 0 <= j < |ps| && ps[j].1.Sized? ==> |ps[j].1.xs| == n
  }

  /** The value of element `i` under one parameter. */
  function ValueAt<V>(v: Value<V>, i: nat): V
    requires v.Sized? ==> i < |v.xs|
  {
    match v
    case Scalar(x) => x
    case Sized(xs) => xs[i]
  }

  /** The combination of values of element `i`, one per key in key order. */
  function Signature<V>(ps: seq<(string, Value<V>)>, n: nat, i: nat): (sig: seq<V>)
    requires Conforms(ps, n) && i < n
    ensures |sig| == |ps|
    ensures forall j :: 0 <= j < |ps| ==> sig[j] == ValueAt(ps[j].1, i)
  {
    seq(|ps|, j requires 0 <= j < |ps| => ValueAt(ps[j].1, i))
  }

  /** The dictionary a group is yielded with: key j maps to `sig[j]`. */
  function DictOf<V>(ps: seq<(string, Value<V>)>, sig: seq<V>): (d: map<string, V>)
    requires DistinctKeys(ps) && |sig| == |ps|
    ensures d.Keys == KeySet(ps)
    ensures forall j :: 0 <= j < |ps| ==> d[ps[j].0] == sig[j]
  {
    var d := map j | 0 <= j < |ps| :: ps[j].0 := sig[j];
    assert forall j :: 0 <= j < |ps| ==> ps[j].0 in d && d[ps[j].0] == sig[j];
    d
  }

  /** The parameters themselves, returned when every value is a scalar. */
  function ScalarDict<V>(ps: seq<(string, Value<V>)>): (d: map<string, V>)
    requires DistinctKeys(ps)
    requires forall j :: 0 <= j < |ps| ==> ps[j].1.Scalar?
    ensures d.Keys == KeySet(ps)
    ensures forall j :: 0 <= j < |ps| ==> d[ps[j].0] == ps[j].1.x
  {
    DictOf(ps, seq(|ps|, j requires 0 <= j < |ps| => ps[j].1.x))
  }

  /** Element `i` has, under every key, the value `d` gives that key. */
  predicate Matches<V(==)>(ps: seq<(string, Value<V>)>, n: nat, i: nat, d: map<string, V>)
    requires Conforms(ps, n) && i < n
  {
    forall j :: 0 <= j < |ps| ==> ps[j].0 in d && d[ps[j].0] == ValueAt(ps[j].1, i)
  }

  predicate StrictlyIncreasing(s: seq<nat>) {
    forall a, b :: 0 <= a < b < |s| ==> s[a] < s[b]
  }

  /**
   * What the grouping promises for `n` elements: every group is non-empty,
   * ascending, and holds exactly the elements whose values match its
   * dictionary; the dictionaries of two groups differ; every element lies in
   * some group.
   */
  predicate IsGrouping<V(==)>(ps: seq<(string, Value<V>)>, n: nat, gs: seq<Group<V>>)
    requires Conforms(ps, n)
  {
    && (forall q :: 0 <= q < |gs| ==>
          && |gs[q].indices| > 0
          && StrictlyIncreasing(gs[q].indices)
          && gs[q].values.Keys == KeySet(ps)
          && (forall i :: i in gs[q].indices ==> i < n)
          && (forall i :: 0 <= i < n ==> (i in gs[q].indices <==> Matches(ps, n, i, gs[q].values))))
    && (forall p, q :: 0 <= p < q < |gs| ==> gs[p].values != gs[q].values)
    && (forall i :: 0 <= i < n ==> Covered(gs, i))
  }

  predicate Covered<V>(gs: seq<Group<V>>, i: nat) {
    exists q :: 0 <= q < |gs| && i in gs[q].indices
  }

  lemma MatchesSignature<V>(ps: seq<(string, Value<V>)>, n: nat, i: nat, sig: seq<V>)
    requires DistinctKeys(ps) && Conforms(ps, n) && i < n && |sig| == |ps|
    ensures Matches(ps, n, i, DictOf(ps, sig)) <==> Signature(ps, n, i) == sig
  {
    var d := DictOf(ps, sig);
    if Matches(ps, n, i, d) {
      forall j | 0 <= j < |ps| ensures Signature(ps, n, i)[j] == sig[j] {
        assert d[ps[j].0] == ValueAt(ps[j].1, i);
      }
    }
  }

  lemma {:induction false} DictOfInjective<V>(ps: seq<(string, Value<V>)>, s1: seq<V>, s2: seq<V>)
    requires DistinctKeys(ps) && |s1| == |ps| && |s2| == |ps|
    requires DictOf(ps, s1) == DictOf(ps, s2)
    ensures s1 == s2
  {
    forall j | 0 <= j < |ps| ensures s1[j] == s2[j] {
      assert DictOf(ps, s1)[ps[j].0] == s1[j];
    }
  }

  /** The groups of a grouping are pairwise disjoint. */
  lemma {:induction false} GroupsDisjoint<V>(ps: seq<(string, Value<V>)>, n: nat, gs: seq<Group<V>>, p: nat, q: nat, i: nat)
    requires Conforms(ps, n) && IsGrouping(ps, n, gs)
    requires p < q < |gs|
    ensures !(i in gs[p].indices && i in gs[q].indices)
  {
  }

  /**
   * `uniq_combs`: the distinct value combinations of the elements, in order
   * of first occurrence (the source collects them in a set, whose order of
   * iteration Python leaves unspecified).
   */
  method UniqueCombinations<V(==)>(ps: seq<(string, Value<V>)>, n: nat) returns (sigs: seq<seq<V>>)
    requires Conforms(ps, n)
    ensures forall a, b :: 0 <= a < b < |sigs| ==> sigs[a] != sigs[b]
    ensures forall s :: s in sigs ==> |s| == |ps|
    ensures forall s :: s in sigs ==> exists i :: 0 <= i < n && Signature(ps, n, i) == s
    ensures forall i :: 0 <= i < n ==> Signature(ps, n, i) in sigs
  {
    sigs := [];
    for i := 0 to n
      invariant forall a, b :: 0 <= a < b < |sigs| ==> sigs[a] != sigs[b]
      invariant forall s :: s in sigs ==> |s| == |ps|
      invariant forall s :: s in sigs ==> exists e :: 0 <= e < i && Signature(ps, n, e) == s
      invariant forall e :: 0 <= e < i ==> Signature(ps, n, e) in sigs
    {
      var sig := Signature(ps, n, i);
      if sig !in sigs {
        sigs := sigs + [sig];
      }
    }
  }

  /**
   * `elem_indices`: starts all true and is multiplied, key by key, with the
   * comparison of that key's per-element value against the combination.
   */
  method CombinationMask<V(==)>(ps: seq<(string, Value<V>)>, n: nat, sig: seq<V>) returns (mask: seq<bool>)
    requires Conforms(ps, n) && |sig| == |ps|
    ensures |mask| == n
    ensures forall i :: 0 <= i < n ==> (mask[i] <==> Signature(ps, n, i) == sig)
  {
    mask := seq(n, _ => true);
    for j := 0 to |ps|
      invariant |mask| == n
      invariant forall i :: 0 <= i < n ==> (mask[i] <==> forall t :: 0 <= t < j ==> ValueAt(ps[t].1, i) == sig[t])
    {
      var v := ps[j].1;
      mask := seq(n, i requires 0 <= i < n && |mask| == n => mask[i] && ValueAt(v, i) == sig[j]);
    }
    forall i | 0 <= i < n ensures mask[i] <==> Signature(ps, n, i) == sig {
      if mask[i] {
        assert forall t :: 0 <= t < |ps| ==> Signature(ps, n, i)[t] == sig[t];
      }
    }
  }

  /** `mask.nonzero()[0]`: the positions of the true entries, ascending. */
  method Nonzero(mask: seq<bool>) returns (idx: seq<nat>)
    ensures StrictlyIncreasing(idx)
    ensures forall i: nat :: i in idx <==> i < |mask| && mask[i]
  {
    idx := [];
    for i := 0 to |mask|
      invariant StrictlyIncreasing(idx)
      invariant forall a :: 0 <= a < |idx| ==> idx[a] < i
      invariant forall e: nat :: e in idx <==> e < i && mask[e]
    {
      if mask[i] {
        idx := idx + [i];
      }
    }
  }

  /** `idx` holds, ascending, exactly the elements whose combination is `sig`. */
  ghost predicate HoldsCombination<V>(ps: seq<(string, Value<V>)>, n: nat, sig: seq<V>, idx: seq<nat>)
    requires Conforms(ps, n)
  {
    && |idx| > 0
    && StrictlyIncreasing(idx)
    && (forall i: nat :: i in idx <==> i < n && Signature(ps, n, i) == sig)
  }

  /** The distinct combinations that occur, and only those. */
  ghost predicate AllCombinations<V>(ps: seq<(string, Value<V>)>, n: nat, sigs: seq<seq<V>>)
    requires Conforms(ps, n)
  {
    && (forall a, b :: 0 <= a < b < |sigs| ==> sigs[a] != sigs[b])
    && (forall s :: s in sigs ==> |s| == |ps|)
    && (forall s :: s in sigs ==> exists i :: 0 <= i < n && Signature(ps, n, i) == s)
    && (forall i :: 0 <= i < n ==> Signature(ps, n, i) in sigs)
  }

  /**
   * The loop over `uniq_combs`: for each combination the mask of its elements
   * and, when some element has it, the group of their indices with the
   * combination's dictionary.
   */
  method GroupsOf<V(==)>(ps: seq<(string, Value<V>)>, n: nat, sigs: seq<seq<V>>) returns (groups: seq<Group<V>>)
    requires DistinctKeys(ps) && Conforms(ps, n) && AllCombinations(ps, n, sigs)
    ensures IsGrouping(ps, n, groups)
  {
    groups := [];
    for q := 0 to |sigs|
      invariant |groups| == q
      invariant forall p :: 0 <= p < q ==>
        groups[p].values == DictOf(ps, sigs[p]) && HoldsCombination(ps, n, sigs[p], groups[p].indices)
    {
      var mask := CombinationMask(ps, n, sigs[q]);
      var idx := Nonzero(mask);
      assert sigs[q] in sigs;
      var w :| 0 <= w < n && Signature(ps, n, w) == sigs[q];
      assert w in idx;
      if |idx| > 0 {
        groups := groups + [Group(idx, DictOf(ps, sigs[q]))];
      }
    }
    GroupingFromCombinations(ps, n, sigs, groups);
  }

  lemma GroupingFromCombinations<V>(ps: seq<(string, Value<V>)>, n: nat, sigs: seq<seq<V>>, groups: seq<Group<V>>)
    requires DistinctKeys(ps) && Conforms(ps, n) && AllCombinations(ps, n, sigs)
    requires |groups| == |sigs|
    requires forall p :: 0 <= p < |sigs| ==>
      groups[p].values == DictOf(ps, sigs[p]) && HoldsCombination(ps, n, sigs[p], groups[p].indices)
    ensures IsGrouping(ps, n, groups)
  {
    forall q | 0 <= q < |groups|
      ensures forall i :: 0 <= i < n ==> (i in groups[q].indices <==> Matches(ps, n, i, groups[q].values))
    {
      forall i | 0 <= i < n ensures i in groups[q].indices <==> Matches(ps, n, i, groups[q].values) {
        MatchesSignature(ps, n, i, sigs[q]);
      }
    }
    forall p, q | 0 <= p < q < |groups| ensures groups[p].values != groups[q].values {
      if groups[p].values == groups[q].values {
        DictOfInjective(ps, sigs[p], sigs[q]);
      }
    }
    forall i | 0 <= i < n ensures Covered(groups, i) {
      var q :| 0 <= q < |sigs| && sigs[q] == Signature(ps, n, i);
      assert i in groups[q].indices;
    }
  }

  /**
   * `group_identical_parameters`, with the yielded pairs collected into a
   * sequence. The element count is `numElements`, or else the length of the
   * first sized value; with no sized value and no count the parameters form
   * the one group `[0]`. Sized values of any other length raise `ValueError`.
   */
  method GroupIdenticalParameters<V(==)>(ps: seq<(string, Value<V>)>, numElements: Option<nat>)
    returns (r: Result<seq<Group<V>>>)
    requires DistinctKeys(ps)
    ensures numElements.None? && |SizedLengths(ps)| == 0 ==> r == Ok([Group([0], ScalarDict(ps))])
    ensures numElements.Some? || |SizedLengths(ps)| > 0 ==>
      var n := if numElements.Some? then numElements.value else SizedLengths(ps)[0];
      && (r.Err? <==> !Conforms(ps, n))
      && (r.Err? ==> r.error == ValueError)
      && (r.Ok? ==> Conforms(ps, n) && IsGrouping(ps, n, r.value))
  {
    var lengths := SizedLengths(ps);
    var n: nat;
    if numElements.None? {
      if |lengths| == 0 {
        return Ok([Group([0], ScalarDict(ps))]);
      }
      n := lengths[0];
    } else {
      n := numElements.value;
    }
    if exists l :: l in lengths && l != n {
      return Err(ValueError);
    }
    assert Conforms(ps, n) by {
      forall j | 0 <= j < |ps| && ps[j].1.Sized? ensures |ps[j].1.xs| == n {
        assert |ps[j].1.xs| in lengths;
      }
    }
    var sigs := UniqueCombinations(ps, n);
    var groups := GroupsOf(ps, n, sigs);
    r := Ok(groups);
  }

  /** `filter_dict`: the entries of `d` for which `f(key, value)` holds. */
  function FilterDict<K(!new), V>(d: map<K, V>, f: (K, V) -> bool): (r: map<K, V>)
    ensures forall k :: k in r <==> k in d && f(k, d[k])
    ensures forall k :: k in r ==> r[k] == d[k]
  {
    map k | k in d && f(k, d[k]) :: d[k]
  }

  /** Filtering twice with the same predicate keeps what the first filter kept. */
  lemma FilterDictIdempotent<K(!new), V>(d: map<K, V>, f: (K, V) -> bool)
    ensures FilterDict(FilterDict(d, f), f) == FilterDict(d, f)
  {
  }

  /**
   * A connection tuple as NEST returns it: source gid, target gid, thread,
   * synapse model id and receptor port.
   */
  datatype NestConnection = NestConnection(source: int, target: int, thread: int, synapseModel: int, port: int)

  /** `nest_key_connections`: the sort key (source, target, port). */
  function NestKeyConnections(c: NestConnection): (key: (int, int, int))
    ensures key.0 == c.source && key.1 == c.target && key.2 == c.port
  {
    (c.source, c.target, c.port)
  }

  /**
   * Two connections get the same key exactly when they agree on source,
   * target and port: the key ignores the thread and the synapse model, so
   * sorting by it gives the single-threaded order whatever thread made them.
   */
  lemma NestKeyIgnoresThread(a: NestConnection, b: NestConnection)
    ensures NestKeyConnections(a) == NestKeyConnections(b)
        <==> a.source == b.source && a.target == b.target && a.port == b.port
  {
  }

  /** The kinds of Python object `check_list_array` may be given. */
  datatype PyKind = PyList | PyTuple | PyStr | PyRange | PyNdarray | PyDict | PySet | PyNumber | PyBool | PyNone

  /** The kinds registered as `collections.Sequence`. */
  predicate IsSequenceKind(k: PyKind) {
    k == PyList || k == PyTuple || k == PyStr || k == PyRange
  }

  /** `check_list_array`: a `collections.Sequence` or a numpy array. */
  function CheckListArray(k: PyKind): (b: bool)
    ensures b <==> IsSequenceKind(k) || k == PyNdarray
    ensures k == PyStr ==> b
  {
    k in {PyList, PyTuple, PyStr, PyRange, PyNdarray}
  }
}
