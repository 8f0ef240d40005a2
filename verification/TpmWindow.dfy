/** Tokens per minute (src/limits.rs): a fixed window, restarted lazily, instead of a rolling one. */
module TpmWindow {
  import opened Prelude

  const WINDOW := 60

  datatype Window = Window(start: u64, tokens: u64)

  const NO_WINDOW := Window(0, 0)

  function SaturatingSub(a: u64, b: u64): u64 {
    if a < b then 0 else a - b
  }

  /** The effect of `add`; the second part is the total it returns. */
  function AddTokens(w: Window, tokens: u64, now: u64): (Window, u64) {
    if SaturatingSub(now, w.start) >= WINDOW then (Window(now, tokens), tokens)
    else (w.(tokens := WrapAdd(w.tokens, tokens)), WrapAdd(w.tokens, tokens))
  }

  function CurrentTokens(w: Window, now: u64): u64 {
    if SaturatingSub(now, w.start) >= WINDOW then 0 else w.tokens
  }

  datatype Verdict = Ok(total: u64) | Exceeded(used: u64, limit: u64)

  function Judge(max: Option<u64>, total: u64): Verdict {
    match max
    case None => Ok(total)
    case Some(limit) => if total > limit then Exceeded(total, limit) else Ok(total)
  }

  class TpmCounter {
    var windowStart: u64
    var tokens: u64

    function Value(): Window
      reads this
    {
      Window(windowStart, tokens)
    }

    constructor ()
      ensures Value() == NO_WINDOW
    {
      windowStart, tokens := 0, 0;
    }

    method Add(n: u64, now: u64) returns (total: u64)
      modifies this
      ensures (Value(), total) == AddTokens(old(Value()), n, now)
    {
      if SaturatingSub(now, windowStart) >= WINDOW {
        windowStart := now;
        tokens := n;
        total := n;
      } else {
        tokens := WrapAdd(tokens, n);
        total := tokens;
      }
    }

    method Current(now: u64) returns (n: u64)
      ensures n == CurrentTokens(Value(), now)
    {
      if SaturatingSub(now, windowStart) >= WINDOW {
        n := 0;
      } else {
        n := tokens;
      }
    }
  }

  function WindowOf(view: map<string, Window>, key: string): Window {
    if key in view then view[key] else NO_WINDOW
  }

  class RateLimitStore {
    const maxTpm: map<string, u64>
    var counters: map<string, TpmCounter>

    ghost predicate Valid()
      reads this
    {
      forall k1, k2 | k1 in counters && k2 in counters && k1 != k2 :: counters[k1] != counters[k2]
    }

    function View(): map<string, Window>
      reads this, counters.Values
    {
      map k | k in counters :: counters[k].Value()
    }

    constructor (maxTpm: map<string, u64>)
      ensures Valid() && this.maxTpm == maxTpm && View() == map[]
    {
      this.maxTpm := maxTpm;
      counters := map[];
    }

    method CounterFor(key: string) returns (c: TpmCounter)
      requires Valid()
      modifies this`counters
      ensures Valid() && key in counters && counters[key] == c
      ensures key in old(counters) ==> counters == old(counters)
      ensures key !in old(counters) ==> fresh(c) && c.Value() == NO_WINDOW && counters == old(counters)[key := c]
    {
      if key in counters {
        return counters[key];
      }
      c := new TpmCounter();
      counters := counters[key := c];
    }

    method RecordTpm(key: string, tokens: u64, now: u64) returns (v: Verdict)
      requires Valid()
      modifies this`counters, counters.Values
      ensures Valid() && fresh(counters.Values - old(counters.Values))
      ensures var (w, total) := AddTokens(WindowOf(old(View()), key), tokens, now);
              && View() == old(View())[key := w]
              && v == Judge(if key in maxTpm then Some(maxTpm[key]) else None, total)
    {
      var c := CounterFor(key);
      var total := c.Add(tokens, now);
      v := Judge(if key in maxTpm then Some(maxTpm[key]) else None, total);
    }

    method CurrentTpm(key: string, now: u64) returns (n: u64)
      requires Valid()
      modifies this`counters
      ensures Valid() && fresh(counters.Values - old(counters.Values))
      ensures n == CurrentTokens(WindowOf(old(View()), key), now)
      ensures View() == old(View())[key := WindowOf(old(View()), key)]
    {
      var c := CounterFor(key);
      n := c.Current(now);
    }
  }

  // -------------------------------------------------------------------------
  // One key's history
  // -------------------------------------------------------------------------

  datatype Call = Call(time: u64, tokens: u64)

  function WindowAfter(h: seq<Call>): Window {
    if h == [] then NO_WINDOW
    else AddTokens(WindowAfter(h[..|h| - 1]), h[|h| - 1].tokens, h[|h| - 1].time).0
  }

  /** The call `c`, made after `before`, is answered Ok. */
  predicate Accepted(max: u64, before: seq<Call>, c: Call) {
    Judge(Some(max), AddTokens(WindowAfter(before), c.tokens, c.time).1).Ok?
  }

  ghost predicate InOrder(h: seq<Call>) {
    forall i, j | 0 <= i < j < |h| :: h[i].time <= h[j].time
  }

  predicate Restarts(w: Window, c: Call) {
    SaturatingSub(c.time, w.start) >= WINDOW
  }

  /** Everything ever added since time `from`. */
  function AddedSince(h: seq<Call>, from: int): nat {
    if h == [] then 0
    else AddedSince(h[..|h| - 1], from) + (if h[|h| - 1].time >= from then h[|h| - 1].tokens else 0)
  }

  /** The tokens of the calls answered Ok since time `from`. */
  function OkSince(max: u64, h: seq<Call>, from: int): nat {
    if h == [] then 0
    else
      var init, c := h[..|h| - 1], h[|h| - 1];
      OkSince(max, init, from) + (if c.time >= from && Accepted(max, init, c) then c.tokens else 0)
  }

  /** The tokens of the calls answered Ok within the 60 seconds that start at `from`. */
  function OkWithin(max: u64, h: seq<Call>, from: int): nat {
    if h == [] then 0
    else
      var init, c := h[..|h| - 1], h[|h| - 1];
      OkWithin(max, init, from)
      + (if from <= c.time < from + 60 && Accepted(max, init, c) then c.tokens else 0)
  }

  lemma {:induction false} AddedMonotone(h: seq<Call>, a: int, b: int)
    requires a <= b
    ensures AddedSince(h, b) <= AddedSince(h, a)
  {
    if h != [] {
      AddedMonotone(h[..|h| - 1], a, b);
    }
  }

  lemma {:induction false} OkMonotone(max: u64, h: seq<Call>, a: int, b: int)
    requires a <= b
    ensures OkSince(max, h, b) <= OkSince(max, h, a)
  {
    if h != [] {
      OkMonotone(max, h[..|h| - 1], a, b);
    }
  }

  lemma {:induction false} OkAfterAll(max: u64, h: seq<Call>, from: int)
    requires forall i | 0 <= i < |h| :: h[i].time < from
    ensures OkSince(max, h, from) == 0 && AddedSince(h, from) == 0
  {
    if h != [] {
      OkAfterAll(max, h[..|h| - 1], from);
    }
  }

  lemma {:induction false} OkWithinAtMostSince(max: u64, h: seq<Call>, from: int)
    ensures OkWithin(max, h, from) <= OkSince(max, h, from)
  {
    if h != [] {
      OkWithinAtMostSince(max, h[..|h| - 1], from);
    }
  }

  /** The window counts exactly what was added since it started, modulo 2^64, and it is the only
      window any call younger than its end belongs to. */
  lemma {:induction false} WindowCounts(h: seq<Call>)
    requires InOrder(h)
    ensures var w := WindowAfter(h);
            && w.tokens == AddedSince(h, w.start) % U64_MODULUS
            && (forall i | 0 <= i < |h| :: h[i].time < w.start + WINDOW)
            && (w.start == 0 || (h != [] && w.start <= h[|h| - 1].time))
  {
    if h != [] {
      var n := |h| - 1;
      var init, c := h[..n], h[n];
      WindowCounts(init);
      var w := WindowAfter(init);
      if Restarts(w, c) {
        OkAfterAll(0, init, c.time);
      } else {
        WrapCongruence(AddedSince(init, w.start), c.tokens);
      }
    }
  }

  /** NEVER OVER-REPORTS. `current` is the sum of the adds since the window started, modulo 2^64, and
      zero once 60 seconds have passed; so it is at most what was really added in the trailing 60
      seconds, whether or not a window has wrapped around. */
  lemma NeverOverReports(h: seq<Call>, now: u64)
    requires InOrder(h)
    requires h != [] ==> h[|h| - 1].time <= now
    ensures var w := WindowAfter(h);
            CurrentTokens(w, now) == if now - w.start >= 60 then 0 else AddedSince(h, w.start) % U64_MODULUS
    ensures CurrentTokens(WindowAfter(h), now) <= AddedSince(h, now - 59)
  {
    WindowCounts(h);
    var w := WindowAfter(h);
    if now - w.start < WINDOW {
      AddedMonotone(h, now - WINDOW + 1, w.start);
    }
  }

  /** Everything added in the window that is open after `h`, counted without wrapping. */
  function OpenTotal(h: seq<Call>): nat {
    AddedSince(h, WindowAfter(h).start)
  }

  /** No window ever adds up to more than `m` tokens. */
  ghost predicate TotalsAtMost(h: seq<Call>, m: nat) {
    OpenTotal(h) <= m && (h != [] ==> TotalsAtMost(h[..|h| - 1], m))
  }

  lemma Unwrapped(h: seq<Call>)
    requires InOrder(h) && TotalsAtMost(h, U64_MODULUS - 1)
    ensures WindowAfter(h).tokens == OpenTotal(h)
  {
    WindowCounts(h);
  }

  /** What the accepted calls have used of the limit: at most once in the current window, and at most
      once more in the 60 seconds before it. */
  ghost predicate WithinLimit(max: u64, h: seq<Call>) {
    var w := WindowAfter(h);
    && OkSince(max, h, w.start) <= max
    && OkSince(max, h, w.start) <= w.tokens
    && forall from: int | w.start - WINDOW < from <= w.start ::
         OkSince(max, h, from) - OkSince(max, h, w.start) <= max
  }

  lemma RestartKeepsLimit(max: u64, h: seq<Call>)
    requires h != [] && InOrder(h) && TotalsAtMost(h, U64_MODULUS - 1) && WithinLimit(max, h[..|h| - 1])
    requires Restarts(WindowAfter(h[..|h| - 1]), h[|h| - 1])
    ensures WithinLimit(max, h)
  {
    var init, c := h[..|h| - 1], h[|h| - 1];
    WindowCounts(init);
    var before := WindowAfter(init);
    assert WindowAfter(h) == Window(c.time, c.tokens);
    OkAfterAll(max, init, c.time);
    forall from: int | c.time - WINDOW < from <= c.time
      ensures OkSince(max, h, from) - OkSince(max, h, c.time) <= max
    {
      OkMonotone(max, init, before.start, from);
    }
  }

  lemma SameWindowKeepsLimit(max: u64, h: seq<Call>)
    requires h != [] && InOrder(h) && TotalsAtMost(h, U64_MODULUS - 1) && WithinLimit(max, h[..|h| - 1])
    requires !Restarts(WindowAfter(h[..|h| - 1]), h[|h| - 1])
    ensures WithinLimit(max, h)
  {
    var init, c := h[..|h| - 1], h[|h| - 1];
    WindowCounts(init);
    WindowCounts(h);
    Unwrapped(init);
    Unwrapped(h);
    var w := WindowAfter(init);
    assert WindowAfter(h).start == w.start <= c.time;
    assert OpenTotal(h) == OpenTotal(init) + c.tokens;
    forall from: int | w.start - WINDOW < from <= w.start
      ensures OkSince(max, h, from) - OkSince(max, h, w.start) <= max
    {
      assert OkSince(max, init, from) - OkSince(max, init, w.start) <= max;
    }
  }

  lemma {:induction false} LimitHolds(max: u64, h: seq<Call>)
    requires InOrder(h) && TotalsAtMost(h, U64_MODULUS - 1)
    ensures WithinLimit(max, h)
  {
    if h != [] {
      LimitHolds(max, h[..|h| - 1]);
      if Restarts(WindowAfter(h[..|h| - 1]), h[|h| - 1]) {
        RestartKeepsLimit(max, h);
      } else {
        SameWindowKeepsLimit(max, h);
      }
    }
  }

  /** Under a clock that does not run backwards, and while no window total reaches 2^64, the calls
      answered Ok within any 60 consecutive seconds total at most twice the limit. */
  lemma {:induction false} RollingBound(max: u64, h: seq<Call>, from: int)
    requires InOrder(h) && TotalsAtMost(h, U64_MODULUS - 1)
    ensures OkWithin(max, h, from) <= 2 * max
  {
    if h != [] {
      var c := h[|h| - 1];
      RollingBound(max, h[..|h| - 1], from);
      if from <= c.time < from + WINDOW {
        LimitHolds(max, h);
        WindowCounts(h);
        OkWithinAtMostSince(max, h, from);
        var w := WindowAfter(h);
        if from >= w.start {
          OkMonotone(max, h, w.start, from);
        } else {
          assert OkSince(max, h, from) - OkSince(max, h, w.start) <= max;
        }
      }
    }
  }

  lemma AfterOneMore(h: seq<Call>, c: Call)
    ensures WindowAfter(h + [c]) == AddTokens(WindowAfter(h), c.tokens, c.time).0
    ensures forall max: u64, from: int ::
              OkWithin(max, h + [c], from)
              == OkWithin(max, h, from)
                 + (if from <= c.time < from + 60 && Accepted(max, h, c) then c.tokens else 0)
    ensures forall from: int :: AddedSince(h + [c], from) == AddedSince(h, from) + (if c.time >= from then c.tokens else 0)
    ensures forall m: nat :: TotalsAtMost(h + [c], m) <==> TotalsAtMost(h, m) && OpenTotal(h + [c]) <= m
  {
    assert (h + [c])[..|h|] == h;
  }

  /** A window opened at `t`, filled at its last second and filled again one second later. */
  function TwoFullWindows(max: u64, t: u64): seq<Call>
    requires t + WINDOW < U64_MODULUS
  {
    [Call(t, 0)] + [Call(t + WINDOW - 1, max)] + [Call(t + WINDOW, max)]
  }

  /** The factor two is real, for every limit and at any time. */
  lemma RollingBoundAttained(max: u64, t: u64)
    requires WINDOW <= t && t + WINDOW < U64_MODULUS
    ensures var h := TwoFullWindows(max, t);
            && InOrder(h) && TotalsAtMost(h, max) && WindowAfter(h) == Window(t + WINDOW, max)
            && OkWithin(max, h, t + WINDOW - 1) == 2 * max
  {
    var h1, c2, c3 := [Call(t, 0)], Call(t + WINDOW - 1, max), Call(t + WINDOW, max);
    AfterOneMore([], Call(t, 0));
    assert [] + h1 == h1;
    AfterOneMore(h1, c2);
    AfterOneMore(h1 + [c2], c3);
  }

  /** Two full windows, the second of which then wraps around to zero. */
  function WrappingHistory(max: u64, t: u64): seq<Call>
    requires t + WINDOW < U64_MODULUS
  {
    TwoFullWindows(max, t) + [Call(t + WINDOW, U64_MODULUS - 1 - max)] + [Call(t + WINDOW, 1)]
  }

  /** One token past 2^64 - 1 in one window is enough to break the bound, for every limit. */
  lemma WrapBreaksBound(max: u64, t: u64)
    requires WINDOW <= t && t + WINDOW < U64_MODULUS
    ensures var h := WrappingHistory(max, t);
            && InOrder(h) && TotalsAtMost(h, U64_MODULUS)
            && OkWithin(max, h, t + WINDOW - 1) == 2 * max + 1
  {
    var h3, c4, c5 := TwoFullWindows(max, t), Call(t + WINDOW, U64_MODULUS - 1 - max), Call(t + WINDOW, 1);
    RollingBoundAttained(max, t);
    TotalsMonotone(h3, max, U64_MODULUS);
    WindowCounts(h3);
    AfterOneMore(h3, c4);
    WindowCounts(h3 + [c4]);
    AfterOneMore(h3 + [c4], c5);
  }

  lemma {:induction false} TotalsMonotone(h: seq<Call>, m: nat, n: nat)
    requires TotalsAtMost(h, m) && m <= n
    ensures TotalsAtMost(h, n)
  {
    if h != [] {
      TotalsMonotone(h[..|h| - 1], m, n);
    }
  }

  /** ROLLING-WINDOW BOUND, exactly. Let no window ever add up to more than `m` tokens. For every
      limit, the calls answered Ok within any 60 consecutive seconds are then sure to total at most
      twice that limit if and only if `m` fits in 64 bits. */
  lemma RollingBoundExact(max: u64, m: nat)
    ensures (forall h, from: int | InOrder(h) && TotalsAtMost(h, m) :: OkWithin(max, h, from) <= 2 * max)
       <==> m < U64_MODULUS
  {
    if m < U64_MODULUS {
      forall h, from: int | InOrder(h) && TotalsAtMost(h, m) ensures OkWithin(max, h, from) <= 2 * max {
        TotalsMonotone(h, m, U64_MODULUS - 1);
        RollingBound(max, h, from);
      }
    } else {
      WrapBreaksBound(max, WINDOW);
      TotalsMonotone(WrappingHistory(max, WINDOW), U64_MODULUS, m);
    }
  }

  lemma OkOneMore(max: u64, h: seq<Call>, c: Call, from: int)
    ensures OkWithin(max, h + [c], from)
         == OkWithin(max, h, from)
            + (if from <= c.time < from + 60 && Accepted(max, h, c) then c.tokens else 0)
    ensures WindowAfter(h + [c]) == AddTokens(WindowAfter(h), c.tokens, c.time).0
  {
    assert (h + [c])[..|h|] == h;
  }

  /** Two calls take the open window once around, and at least one token of them is answered Ok. */
  lemma Lap(max: u64, t: u64, h: seq<Call>) returns (h': seq<Call>)
    requires !Restarts(WindowAfter(h), Call(t, 0)) && WindowAfter(h).tokens == 0
    ensures h' == h + [Call(t, U64_MODULUS - 1), Call(t, 1)]
    ensures WindowAfter(h') == WindowAfter(h) && OkWithin(max, h', t) >= OkWithin(max, h, t) + 1
  {
    var most, one := Call(t, U64_MODULUS - 1), Call(t, 1);
    OkOneMore(max, h, most, t);
    OkOneMore(max, h + [most], one, t);
    assert WindowAfter(h + [most]).tokens == U64_MODULUS - 1;
    h' := h + [most] + [one];
    assert h' == h + [most, one];
  }

  /** With windows that wrap around there is no bound of any kind: for every limit, at any time, calls
      answered Ok within a single second exceed every given number. */
  lemma {:induction false} WrapAdmitsAnything(max: u64, t: u64, size: nat) returns (h: seq<Call>)
    ensures InOrder(h) && forall i | 0 <= i < |h| :: h[i].time == t
    ensures !Restarts(WindowAfter(h), Call(t, 0)) && WindowAfter(h).tokens == 0
    ensures OkWithin(max, h, t) >= size
  {
    if size == 0 {
      h := [Call(t, 0)];
      OkOneMore(max, [], Call(t, 0), t);
      assert [] + h == h;
    } else {
      var before := WrapAdmitsAnything(max, t, size - 1);
      h := Lap(max, t, before);
    }
  }

  /** ONE CALL, in numbers: 60 seconds after its start a window is over and the call opens the next
      one; until then, or if the clock has run backwards, the call adds to it. A key without a limit is
      always answered Ok, a limited one as long as the new total is within the limit. */
  lemma RecordExactly(w: Window, tokens: u64, now: u64, max: Option<u64>)
    ensures now >= w.start + 60 ==> AddTokens(w, tokens, now) == (Window(start := now, tokens := tokens), tokens)
    ensures now < w.start + 60 ==>
              var total := (w.tokens + tokens) % U64_MODULUS;
              AddTokens(w, tokens, now) == (Window(start := w.start, tokens := total), total)
    ensures var total := AddTokens(w, tokens, now).1;
            Judge(max, total) == if max.Some? && total > max.value then Exceeded(used := total, limit := max.value) else Ok(total)
  {
  }
}
