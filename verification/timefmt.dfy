/**
 * Duration decomposition and formatting (`get_time_tuple`, `format_time`,
 * `get_eta`, `get_eta_str` of sbs/utils.py; utils.py holds identical copies
 * of all but `get_eta_str`). The wall clock is left out: the elapsed time is
 * a parameter.
 */
module TimeFormat {

  /** `TIME_DELTAS`: seconds per day, hour, minute, second and millisecond. */
  const TimeDeltas: seq<real> := [86400.0, 3600.0, 60.0, 1.0, 0.001]

  /** The field names of the `TimeTuple` named tuple, in order. */
  const FieldNames: seq<string> := ["d", "h", "m", "s", "ms"]

  predicate AllPositive(ds: seq<real>) {
    forall i :: 0 <= i < |ds| ==> ds[i] > 0.0
  }

  /** One field: `int(np.floor(t / s))`. */
  function FloorQuot(t: real, s: real): int
    requires s > 0.0
  {
    (t / s).Floor
  }

  /** What the closure cell holds afterwards: `np.mod(t, s)`. */
  function FloorMod(t: real, s: real): real
    requires s > 0.0
  {
    t - s * FloorQuot(t, s) as real
  }

  /** Each delta in turn takes its field from the cell and leaves the remainder in it. */
  function Decompose(t: real, ds: seq<real>): (c: seq<int>)
    requires AllPositive(ds)
    ensures |c| == |ds|
    decreases |ds|
  {
    if |ds| == 0 then [] else [FloorQuot(t, ds[0])] + Decompose(FloorMod(t, ds[0]), ds[1..])
  }

  /** `d * q + r` with `q` the days, hours, ... of `tt`. */
  function TimeWeighted(tt: seq<int>): real
    requires |tt| == 5
  {
    tt[0] as real * 86400.0 + tt[1] as real * 3600.0 + tt[2] as real * 60.0
      + tt[3] as real + tt[4] as real * 0.001
  }

  /** Flooring division leaves a remainder in `[0, d)`. */
  lemma FloorDiv(x: real, d: real)
    requires d > 0.0
    ensures var q := (x / d).Floor; d * (q as real) <= x < d * (q as real) + d
  {
    var y := x / d;
    assert d * y == x;
    var q := y.Floor;
    assert q as real <= y < q as real + 1.0;
    assert d * q as real <= d * y;
    var gap := q as real + 1.0 - y;
    assert gap > 0.0;
    assert d * gap > 0.0;
    assert d * (q as real + 1.0) == d * q as real + d;
    assert d * gap == d * (q as real + 1.0) - d * y;
    assert x < d * (q as real) + d;
    assert q == (x / d).Floor;
  }

  /** The time tuple `(d, h, m, s, ms)` of a duration in seconds. */
  function TimeTupleOf(t: real): (tt: seq<int>)
    ensures |tt| == 5
  {
    Decompose(t, TimeDeltas)
  }

  /** The five steps of the decomposition, with their constants written out. */
  function Steps(t: real): (tt: seq<int>) {
    var q0 := (t / 86400.0).Floor;
    var r0 := t - 86400.0 * q0 as real;
    var q1 := (r0 / 3600.0).Floor;
    var r1 := r0 - 3600.0 * q1 as real;
    var q2 := (r1 / 60.0).Floor;
    var r2 := r1 - 60.0 * q2 as real;
    var q3 := (r2 / 1.0).Floor;
    var r3 := r2 - 1.0 * q3 as real;
    var q4 := (r3 / 0.001).Floor;
    [q0, q1, q2, q3, q4]
  }

  lemma TimeTupleSteps(t: real)
    ensures TimeTupleOf(t) == Steps(t)
  {
    var ds0 := TimeDeltas;
    var ds1, ds2, ds3, ds4 := ds0[1..], ds0[2..], ds0[3..], ds0[4..];
    assert ds1[1..] == ds2 && ds2[1..] == ds3 && ds3[1..] == ds4 && ds4[1..] == [];
    assert ds0[0] == 86400.0 && ds1[0] == 3600.0 && ds2[0] == 60.0 && ds3[0] == 1.0 && ds4[0] == 0.001;
    var q0 := (t / 86400.0).Floor;
    var r0 := t - 86400.0 * q0 as real;
    var q1 := (r0 / 3600.0).Floor;
    var r1 := r0 - 3600.0 * q1 as real;
    var q2 := (r1 / 60.0).Floor;
    var r2 := r1 - 60.0 * q2 as real;
    var q3 := (r2 / 1.0).Floor;
    var r3 := r2 - 1.0 * q3 as real;
    var q4 := (r3 / 0.001).Floor;
    assert Decompose(r3, ds4) == [q4];
    assert Decompose(r2, ds3) == [q3, q4];
    assert Decompose(r1, ds2) == [q2, q3, q4];
    assert Decompose(r0, ds1) == [q1, q2, q3, q4];
  }

  /**
   * For every duration `t`: hours, minutes, seconds and milliseconds lie in
   * their ranges, days are negative exactly when `t` is, and the weighted sum
   * of the fields falls short of `t` by less than a millisecond.
   */
  lemma TimeTupleBounds(t: real)
    ensures var tt := TimeTupleOf(t);
      && 0 <= tt[1] < 24 && 0 <= tt[2] < 60 && 0 <= tt[3] < 60 && 0 <= tt[4] < 1000
      && (tt[0] >= 0 <==> t >= 0.0)
      && 0.0 <= t - TimeWeighted(tt) < 0.001
  {
    TimeTupleSteps(t);
    var q0 := (t / 86400.0).Floor;
    var r0 := t - 86400.0 * q0 as real;
    var q1 := (r0 / 3600.0).Floor;
    var r1 := r0 - 3600.0 * q1 as real;
    var q2 := (r1 / 60.0).Floor;
    var r2 := r1 - 60.0 * q2 as real;
    var q3 := (r2 / 1.0).Floor;
    var r3 := r2 - 1.0 * q3 as real;
    var q4 := (r3 / 0.001).Floor;
    FloorDiv(t, 86400.0);
    FloorDiv(r0, 3600.0);
    FloorDiv(r1, 60.0);
    FloorDiv(r2, 1.0);
    FloorDiv(r3, 0.001);
    assert TimeTupleOf(t) == [q0, q1, q2, q3, q4];
  }

  /**
   * `get_time_tuple`: a closure holds the running remainder; each field takes
   * the floor of the remainder over its delta and leaves the remainder modulo
   * that delta.
   */
  method GetTimeTuple(timediff: real) returns (tt: seq<int>)
    ensures tt == TimeTupleOf(timediff)
    ensures 0 <= tt[1] < 24 && 0 <= tt[2] < 60 && 0 <= tt[3] < 60 && 0 <= tt[4] < 1000
    ensures 0.0 <= timediff - TimeWeighted(tt) < 0.001
  {
    var cell := timediff;
    tt := [];
    for k := 0 to |TimeDeltas|
      invariant |tt| == k
      invariant tt + Decompose(cell, TimeDeltas[k..]) == Decompose(timediff, TimeDeltas)
    {
      var s := TimeDeltas[k];
      DecomposeStep(cell, TimeDeltas, k);
      var field := FloorQuot(cell, s);
      cell := FloorMod(cell, s);
      assert (tt + [field]) + Decompose(cell, TimeDeltas[k + 1..]) == tt + ([field] + Decompose(cell, TimeDeltas[k + 1..]));
      tt := tt + [field];
    }
    TimeTupleBounds(timediff);
  }

  /** Step `k` of the closure takes field `k` from the cell and leaves the remainder for the rest. */
  lemma DecomposeStep(t: real, ds: seq<real>, k: nat)
    requires AllPositive(ds) && k < |ds|
    ensures AllPositive(ds[k..]) && AllPositive(ds[k + 1..])
    ensures Decompose(t, ds[k..]) == [FloorQuot(t, ds[k])] + Decompose(FloorMod(t, ds[k]), ds[k + 1..])
  {
    assert ds[k..][0] == ds[k] && ds[k..][1..] == ds[k + 1..];
  }

  function Digit(d: nat): char
    requires d < 10
  {
    "0123456789"[d]
  }

  /** `"{0}".format(n)` for a non-negative integer: its decimal digits. */
  function NatToString(n: nat): (s: string)
    ensures |s| > 0
    ensures forall i :: 0 <= i < |s| ==> '0' <= s[i] <= '9'
    ensures n > 0 ==> s[0] != '0'
  {
    if n < 10 then [Digit(n)] else NatToString(n / 10) + [Digit(n % 10)]
  }

  /** Reads a string of decimal digits back as a number. */
  function ParseDigits(s: string): nat
    requires forall i :: 0 <= i < |s| ==> '0' <= s[i] <= '9'
  {
    if |s| == 0 then 0 else 10 * ParseDigits(s[..|s| - 1]) + (s[|s| - 1] - '0') as nat
  }

  /** The decimal text of a number reads back as that number. */
  lemma {:induction false} NatToStringRoundTrip(n: nat)
    ensures ParseDigits(NatToString(n)) == n
  {
    if n >= 10 {
      NatToStringRoundTrip(n / 10);
      var s := NatToString(n);
      assert s[..|s| - 1] == NatToString(n / 10);
    }
  }

  /** `" ".join(parts)`. */
  function Join(parts: seq<string>): string {
    if |parts| == 0 then ""
    else if |parts| == 1 then parts[0]
    else parts[0] + " " + Join(parts[1..])
  }

  /** The parts `"{value}{name}"` of the fields from `k` on whose value is positive. */
  function Parts(tt: seq<int>, k: nat): seq<string>
    requires |tt| == 5 && k <= 5
    decreases 5 - k
  {
    if k == 5 then []
    else (if tt[k] > 0 then [NatToString(tt[k]) + FieldNames[k]] else []) + Parts(tt, k + 1)
  }

  /** `format_time`: the positive fields of the time tuple, joined by spaces; the text has no slash. */
  function FormatTime(timediff: real): (s: string)
    ensures NoSlash(s)
  {
    var tt := TimeTupleOf(timediff);
    PartsShape(tt, 0);
    JoinNoSlash(Parts(tt, 0));
    Join(Parts(tt, 0))
  }

  /** Number of fields from `k` on that are positive. */
  function PositiveFields(tt: seq<int>, k: nat): nat
    requires |tt| == 5 && k <= 5
    decreases 5 - k
  {
    if k == 5 then 0 else (if tt[k] > 0 then 1 else 0) + PositiveFields(tt, k + 1)
  }

  predicate NoSlash(s: string) {
    forall i :: 0 <= i < |s| ==> s[i] != '/'
  }

  lemma NoSlashConcat(a: string, b: string)
    requires NoSlash(a) && NoSlash(b)
    ensures NoSlash(a + b)
  {
    assert forall i :: |a| <= i < |a + b| ==> (a + b)[i] == b[i - |a|];
  }

  /** A part `"{value}{name}"` is non-empty and has no slash. */
  lemma PartNoSlash(n: nat, k: nat)
    requires k < 5
    ensures NoSlash(NatToString(n) + FieldNames[k]) && |NatToString(n) + FieldNames[k]| > 0
  {
    assert NoSlash(FieldNames[k]);
    NoSlashConcat(NatToString(n), FieldNames[k]);
  }

  /**
   * `format_time` shows one part per positive field, each the field's digits
   * followed by its name, and zero fields are omitted.
   */
  lemma {:induction false} PartsShape(tt: seq<int>, k: nat)
    requires |tt| == 5 && k <= 5
    ensures |Parts(tt, k)| == PositiveFields(tt, k)
    ensures forall p :: p in Parts(tt, k) ==> NoSlash(p) && |p| > 0
    ensures forall j :: k <= j < 5 && tt[j] > 0 ==> NatToString(tt[j]) + FieldNames[j] in Parts(tt, k)
    decreases 5 - k
  {
    if k < 5 {
      PartsShape(tt, k + 1);
      if tt[k] > 0 {
        PartNoSlash(tt[k], k);
      }
    }
  }

  lemma {:induction false} JoinNoSlash(parts: seq<string>)
    requires forall p :: p in parts ==> NoSlash(p)
    ensures NoSlash(Join(parts))
  {
    if |parts| > 1 {
      JoinNoSlash(parts[1..]);
      NoSlashConcat(parts[0], " ");
      NoSlashConcat(parts[0] + " ", Join(parts[1..]));
    }
  }

  /** A formatted duration is empty exactly when no field is positive. */
  lemma {:induction false} FormatTimeEmpty(timediff: real)
    ensures FormatTime(timediff) == "" <==> PositiveFields(TimeTupleOf(timediff), 0) == 0
  {
    var parts := Parts(TimeTupleOf(timediff), 0);
    PartsShape(TimeTupleOf(timediff), 0);
    if |parts| > 0 {
      assert |Join(parts)| > 0 by {
        if |parts| > 1 {
          assert Join(parts) == parts[0] + " " + Join(parts[1..]);
        }
      }
    }
  }

  /** A non-negative duration under one millisecond formats as the empty string. */
  lemma SubMillisecondIsEmpty(timediff: real)
    requires 0.0 <= timediff < 0.001
    ensures FormatTime(timediff) == ""
  {
    TimeTupleBounds(timediff);
    var tt := TimeTupleOf(timediff);
    assert tt[0] == 0 && tt[1] == 0 && tt[2] == 0 && tt[3] == 0 && tt[4] == 0;
    FormatTimeEmpty(timediff);
  }

  /** Result of `get_eta`: seconds still to go, or the string "N/A". */
  datatype Eta = Remaining(seconds: real) | NotAvailable

  /**
   * `get_eta(t_start, current, total)` with `elapsed = time.time() - t_start`:
   * the remaining work at the rate observed so far, unless no work is done.
   */
  function GetEta(elapsed: real, current: real, total: real): (r: Eta)
    ensures r.NotAvailable? <==> current <= 0.0
    ensures r.Remaining? ==> r.seconds * current == elapsed * (total - current)
  {
    if current > 0.0 then Remaining(elapsed / current * (total - current)) else NotAvailable
  }

  /**
   * `get_eta_str`: the estimate of `get_eta`, formatted, while work is in
   * progress; "N/A" before any work is done and once it is complete, and
   * only then, since a formatted duration has no slash.
   */
  function GetEtaStr(elapsed: real, current: real, total: real): (s: string)
    ensures s == "N/A" <==> !(0.0 < current < total)
    ensures 0.0 < current < total ==> s == FormatTime(GetEta(elapsed, current, total).seconds)
  {
    if current > 0.0 && current < total then
      var eta := elapsed / current * (total - current);
      assert GetEta(elapsed, current, total) == Remaining(eta);
      var s := FormatTime(eta);
      assert NoSlash(s) && "N/A"[1] == '/';
      s
    else "N/A"
  }
}
