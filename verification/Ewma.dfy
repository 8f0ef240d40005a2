/** The moving average behind latency routing (src/router.rs), over the reals. */
module Ewma {
  import opened Prelude
  import opened Router

  /** Multiplication, kept as one term. */
  function Times(a: real, b: real): real {
    a * b
  }

  function Mix(alpha: real, sample: real, average: real): real {
    Times(alpha, sample) + Times(1.0 - alpha, average)
  }

  /** One update of the average; the first sample is taken as it is. */
  function Blend(alpha: real, stats: map<string, real>, backend: string, sample: real): map<string, real> {
    if backend in stats then stats[backend := Mix(alpha, sample, stats[backend])]
    else stats[backend := sample]
  }

  datatype Observation = Observation(backend: string, sample: real)

  function StatsAfter(alpha: real, h: seq<Observation>): map<string, real> {
    if h == [] then map[]
    else
      var n := |h| - 1;
      Blend(alpha, StatsAfter(alpha, h[..n]), h[n].backend, h[n].sample)
  }

  /** One backend's samples, in order. */
  function SamplesOf(h: seq<Observation>, backend: string): seq<real> {
    if h == [] then []
    else
      var n := |h| - 1;
      SamplesOf(h[..n], backend) + (if h[n].backend == backend then [h[n].sample] else [])
  }

  function Pow(x: real, n: nat): real {
    if n == 0 then 1.0 else Times(x, Pow(x, n - 1))
  }

  /** The weight of sample `i` among `n`: older samples fade geometrically; the first one stands in
      for everything before it. */
  function Weight(alpha: real, n: nat, i: nat): real
    requires i < n
  {
    Times(if i == 0 then 1.0 else alpha, Pow(1.0 - alpha, n - 1 - i))
  }

  /** The sum of the first `k` weighted samples of `n`. */
  function WeightedSum(alpha: real, n: nat, xs: seq<real>, k: nat): real
    requires k <= n && k <= |xs|
  {
    if k == 0 then 0.0 else WeightedSum(alpha, n, xs, k - 1) + Times(Weight(alpha, n, k - 1), xs[k - 1])
  }

  lemma TimesAssociates(a: real, b: real, c: real)
    ensures Times(a, Times(b, c)) == Times(b, Times(a, c)) == Times(Times(a, b), c)
  {
  }

  lemma TimesDistributes(c: real, s: real, w: real, x: real)
    ensures Times(c, s) + Times(Times(c, w), x) == Times(c, s + Times(w, x))
  {
  }

  lemma WeightFades(alpha: real, n: nat, i: nat)
    requires i < n
    ensures Weight(alpha, n + 1, i) == Times(1.0 - alpha, Weight(alpha, n, i))
  {
    TimesAssociates(if i == 0 then 1.0 else alpha, 1.0 - alpha, Pow(1.0 - alpha, n - 1 - i));
  }

  lemma {:induction false} SumFades(alpha: real, n: nat, xs: seq<real>, x: real, k: nat)
    requires k <= n == |xs|
    ensures WeightedSum(alpha, n + 1, xs + [x], k) == Times(1.0 - alpha, WeightedSum(alpha, n, xs, k))
  {
    if k > 0 {
      SumFades(alpha, n, xs, x, k - 1);
      WeightFades(alpha, n, k - 1);
      TimesDistributes(1.0 - alpha, WeightedSum(alpha, n, xs, k - 1), Weight(alpha, n, k - 1), xs[k - 1]);
    }
  }

  lemma LastSample(alpha: real, xs: seq<real>, x: real)
    ensures var all := xs + [x];
            WeightedSum(alpha, |all|, all, |all|)
            == if xs == [] then x else Mix(alpha, x, WeightedSum(alpha, |xs|, xs, |xs|))
  {
    SumFades(alpha, |xs|, xs, x, |xs|);
    var all := xs + [x];
    assert Weight(alpha, |all|, |xs|) == if xs == [] then 1.0 else alpha;
    assert all[|xs|] == x;
  }

  /** CLOSED FORM. After any history each backend's average is the weighted sum of its own samples;
      it is unset exactly if it has none. Other backends' samples have no influence. */
  lemma {:induction false} AverageClosedForm(alpha: real, h: seq<Observation>, backend: string)
    ensures IsAverage(alpha, StatsAfter(alpha, h), backend, SamplesOf(h, backend))
  {
    if h != [] {
      var n := |h| - 1;
      AverageClosedForm(alpha, h[..n], backend);
      BlendKeepsAverage(alpha, StatsAfter(alpha, h[..n]), backend, SamplesOf(h[..n], backend), h[n]);
      assert SamplesOf(h[..n], backend) + [] == SamplesOf(h[..n], backend);
    }
  }

  /** The backend's average is the weighted sum of `xs`; it is unset exactly if there are none. */
  predicate IsAverage(alpha: real, stats: map<string, real>, backend: string, xs: seq<real>) {
    && (backend in stats <==> xs != [])
    && (xs != [] ==> stats[backend] == WeightedSum(alpha, |xs|, xs, |xs|))
  }

  lemma BlendKeepsAverage(alpha: real, stats: map<string, real>, backend: string, xs: seq<real>, o: Observation)
    requires IsAverage(alpha, stats, backend, xs)
    ensures IsAverage(alpha, Blend(alpha, stats, o.backend, o.sample), backend,
                      if o.backend == backend then xs + [o.sample] else xs)
  {
    if o.backend == backend {
      LastSample(alpha, xs, o.sample);
    }
  }

  lemma StatsAfterOne(alpha: real, h: seq<Observation>, o: Observation)
    ensures StatsAfter(alpha, h + [o]) == Blend(alpha, StatsAfter(alpha, h), o.backend, o.sample)
  {
    assert (h + [o])[..|h|] == h;
  }

  /** `history` is ghost: every observation so far, in order. */
  class EwmaLatency {
    const alpha: real
    var stats: map<string, real>
    ghost var history: seq<Observation>

    ghost predicate Valid()
      reads this
    {
      stats == StatsAfter(alpha, history)
    }

    constructor (alpha: real)
      requires 0.0 < alpha <= 1.0
      ensures Valid() && this.alpha == alpha && history == []
    {
      this.alpha := alpha;
      stats, history := map[], [];
    }

    method Observe(backend: string, sample: real)
      requires Valid()
      modifies this
      ensures Valid() && history == old(history) + [Observation(backend, sample)]
      ensures stats == Blend(alpha, old(stats), backend, sample)
    {
      ghost var before := stats;
      if backend in stats {
        stats := stats[backend := Mix(alpha, sample, stats[backend])];
      } else {
        stats := stats[backend := sample];
      }
      assert stats == Blend(alpha, before, backend, sample);
      assert before == StatsAfter(alpha, history);
      StatsAfterOne(alpha, history, Observation(backend, sample));
      assert stats == StatsAfter(alpha, history + [Observation(backend, sample)]);
      history := history + [Observation(backend, sample)];
    }

    /** The weighted sum of all latencies observed for the backend; nothing before the first. */
    method LatencyMs(backend: string) returns (r: Option<real>)
      requires Valid()
      ensures var xs := SamplesOf(history, backend);
              r == if xs == [] then None else Some(WeightedSum(alpha, |xs|, xs, |xs|))
    {
      AverageClosedForm(alpha, history, backend);
      r := if backend in stats then Some(stats[backend]) else None;
    }

    method Choose(items: seq<Backend>) returns (r: Option<nat>)
      ensures r == EwmaChoose(stats, items)
      ensures r.Some? <==> items != []
      ensures r.Some? ==> FirstLeast(stats, items, r.value)
    {
      if items != [] {
        MinIndexIsFirstLeast(stats, items);
      }
      r := EwmaChoose(stats, items);
    }
  }

  lemma TimesMonotone(a: real, x: real, y: real)
    requires a >= 0.0 && x <= y
    ensures Times(a, x) <= Times(a, y)
  {
  }

  lemma TimesSplits(a: real, b: real, x: real)
    requires a + b == 1.0
    ensures Times(a, x) + Times(b, x) == x
  {
    assert a * x + b * x == (a + b) * x;
  }

  lemma Convex(a: real, b: real, x: real, e: real, lo: real, hi: real)
    requires a >= 0.0 && b >= 0.0 && a + b == 1.0 && lo <= x <= hi && lo <= e <= hi
    ensures lo <= Times(a, x) + Times(b, e) <= hi
  {
    TimesMonotone(a, lo, x);
    TimesMonotone(a, x, hi);
    TimesMonotone(b, lo, e);
    TimesMonotone(b, e, hi);
    TimesSplits(a, b, lo);
    TimesSplits(a, b, hi);
    Sandwich(Times(a, lo), Times(b, lo), Times(a, x), Times(b, e), Times(a, hi), Times(b, hi));
  }

  lemma Sandwich(alo: real, blo: real, ax: real, be: real, ahi: real, bhi: real)
    requires alo <= ax <= ahi && blo <= be <= bhi
    ensures alo + blo <= ax + be <= ahi + bhi
  {
  }

  /** WITHIN RANGE. An average never leaves the range of the backend's own samples. */
  lemma {:induction false} AverageInRange(alpha: real, h: seq<Observation>, backend: string, lo: real, hi: real)
    requires 0.0 < alpha <= 1.0
    requires forall x | x in SamplesOf(h, backend) :: lo <= x <= hi
    requires backend in StatsAfter(alpha, h)
    ensures lo <= StatsAfter(alpha, h)[backend] <= hi
  {
    var n := |h| - 1;
    var before := StatsAfter(alpha, h[..n]);
    assert forall x | x in SamplesOf(h[..n], backend) :: x in SamplesOf(h, backend);
    if backend in before {
      AverageInRange(alpha, h[..n], backend, lo, hi);
    }
    if h[n].backend == backend {
      assert SamplesOf(h, backend) == SamplesOf(h[..n], backend) + [h[n].sample];
      assert h[n].sample in SamplesOf(h, backend);
    }
    BlendInRange(alpha, before, backend, h[n], lo, hi);
  }

  lemma BlendInRange(alpha: real, stats: map<string, real>, backend: string, o: Observation, lo: real, hi: real)
    requires 0.0 < alpha <= 1.0
    requires backend in stats ==> lo <= stats[backend] <= hi
    requires o.backend == backend ==> lo <= o.sample <= hi
    ensures var after := Blend(alpha, stats, o.backend, o.sample);
            backend in after ==> lo <= after[backend] <= hi
  {
    if o.backend == backend && backend in stats {
      Convex(alpha, 1.0 - alpha, o.sample, stats[backend], lo, hi);
    }
  }

  /** Latencies are never negative, and neither are their averages. */
  lemma AveragesNonNegative(alpha: real, h: seq<Observation>, backend: string)
    requires 0.0 < alpha <= 1.0 && forall i | 0 <= i < |h| :: h[i].sample >= 0.0
    requires backend in StatsAfter(alpha, h)
    ensures StatsAfter(alpha, h)[backend] >= 0.0
  {
    var hi := HighestOf(h);
    forall x | x in SamplesOf(h, backend) ensures 0.0 <= x <= hi {
      SampleIsObserved(h, backend, x);
    }
    AverageInRange(alpha, h, backend, 0.0, hi);
  }

  function HighestOf(h: seq<Observation>): (hi: real)
    ensures forall i | 0 <= i < |h| :: h[i].sample <= hi
  {
    if h == [] then 0.0
    else
      var n := |h| - 1;
      var rest := HighestOf(h[..n]);
      assert forall i | 0 <= i < n :: h[..n][i] == h[i];
      if rest < h[n].sample then h[n].sample else rest
  }

  lemma {:induction false} SampleIsObserved(h: seq<Observation>, backend: string, x: real)
    requires x in SamplesOf(h, backend)
    ensures exists i | 0 <= i < |h| :: h[i].sample == x
  {
    var n := |h| - 1;
    if x in SamplesOf(h[..n], backend) {
      SampleIsObserved(h[..n], backend, x);
      var i :| 0 <= i < n && h[..n][i].sample == x;
      assert h[i].sample == x;
    } else {
      assert h[n].sample == x;
    }
  }

  /** COLD START. After any history of latencies, a request with an eligible backend that was never
      observed goes to a backend whose score is zero. */
  lemma UnseenBackendIsProbed(alpha: real, h: seq<Observation>, backends: seq<Backend>, q: Query, markPrivate: bool, cold: nat)
    requires 0.0 < alpha <= 1.0 && forall i | 0 <= i < |h| :: h[i].sample >= 0.0
    requires cold < |backends| && Eligible(Classify(q, markPrivate), backends[cold])
    requires SamplesOf(h, backends[cold].name) == []
    ensures var stats := StatsAfter(alpha, h);
            var r := Route(backends, items => EwmaChoose(stats, items), q, markPrivate);
            r.Routed? && Score(stats, r.backend) == 0.0
  {
    var stats := StatsAfter(alpha, h);
    AverageClosedForm(alpha, h, backends[cold].name);
    forall name | name in stats ensures stats[name] >= 0.0 {
      AveragesNonNegative(alpha, h, name);
    }
    ColdBackendIsProbed(stats, backends, q, markPrivate, cold);
  }
}
