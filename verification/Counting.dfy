/** The metrics handle (src/metrics.rs) and what its counters mean after any history. */
module Counting {
  import opened Prelude
  import opened Labels
  import opened Metrics

  datatype Family = Requests | Tokens | UpstreamErrors | RateLimitRejections | BudgetRejections

  datatype Families = Families(
    requests: map<string, u64>, tokens: map<string, u64>, upstreamErrors: map<string, u64>,
    rateLimitRejections: map<string, u64>, budgetRejections: map<string, u64>)

  const EMPTY := Families(map[], map[], map[], map[], map[])

  function Get(f: Families, family: Family): map<string, u64> {
    match family
    case Requests => f.requests
    case Tokens => f.tokens
    case UpstreamErrors => f.upstreamErrors
    case RateLimitRejections => f.rateLimitRejections
    case BudgetRejections => f.budgetRejections
  }

  function Set(f: Families, family: Family, m: map<string, u64>): Families {
    match family
    case Requests => f.(requests := m)
    case Tokens => f.(tokens := m)
    case UpstreamErrors => f.(upstreamErrors := m)
    case RateLimitRejections => f.(rateLimitRejections := m)
    case BudgetRejections => f.(budgetRejections := m)
  }

  /** One call of a `record_*` method. */
  datatype Event =
    | Request(backend: string, model: string, status: string)
    | TokenUse(key: string, usage: Usage)
    | UpstreamError(backend: string)
    | RateLimited(key: string)
    | OverBudget(key: string)

  datatype Increment = Increment(family: Family, labels: string, n: u64)

  const KINDS: seq<Kind> := [Prompt, Completion, Kind.Total]

  function TokenIncrement(key: string, usage: Usage, kind: Kind): Increment {
    Increment(Tokens, TokenLabel(key, kind), Amount(usage, kind))
  }

  /** The counters an event touches, and by how much. */
  function Increments(ev: Event): seq<Increment> {
    match ev
    case Request(b, m, s) => [Increment(Requests, RequestLabel(b, m, s), 1)]
    case TokenUse(k, u) =>
      [TokenIncrement(k, u, Prompt), TokenIncrement(k, u, Completion), TokenIncrement(k, u, Kind.Total)]
    case UpstreamError(b) => [Increment(UpstreamErrors, BackendLabel(b), 1)]
    case RateLimited(k) => [Increment(RateLimitRejections, KeyLabel(k), 1)]
    case OverBudget(k) => [Increment(BudgetRejections, KeyLabel(k), 1)]
  }

  function AddOne(f: Families, inc: Increment): Families {
    Set(f, inc.family, Bump(Get(f, inc.family), inc.labels, inc.n))
  }

  function AddAll(f: Families, incs: seq<Increment>): Families {
    if incs == [] then f else AddOne(AddAll(f, incs[..|incs| - 1]), incs[|incs| - 1])
  }

  function Apply(f: Families, ev: Event): Families {
    AddAll(f, Increments(ev))
  }

  function ApplyAll(f: Families, events: seq<Event>): Families {
    Fold(Apply, f, events)
  }

  /** The counters after a history of events. */
  function After(h: seq<Event>): Families {
    ApplyAll(EMPTY, h)
  }

  lemma ApplySnoc(f: Families, events: seq<Event>, ev: Event)
    ensures ApplyAll(f, events + [ev]) == Apply(ApplyAll(f, events), ev)
  {
    FoldSnoc(Apply, f, events, ev);
  }

  lemma ApplyConcat(f: Families, a: seq<Event>, b: seq<Event>)
    ensures ApplyAll(f, a + b) == ApplyAll(ApplyAll(f, a), b)
  {
    FoldConcat(Apply, f, a, b);
  }

  lemma ApplyOne(f: Families, ev: Event)
    ensures ApplyAll(f, [ev]) == Apply(f, ev)
  {
    FoldSnoc(Apply, f, [], ev);
    assert [] + [ev] == [ev];
  }

  lemma ApplyCons(f: Families, ev: Event, rest: seq<Event>)
    ensures ApplyAll(f, [ev] + rest) == ApplyAll(Apply(f, ev), rest)
  {
    ApplyConcat(f, [ev], rest);
    ApplyOne(f, ev);
  }

  /** Unfolding a history at its last event. */
  lemma ApplyLast(f: Families, h: seq<Event>)
    requires h != []
    ensures ApplyAll(f, h) == Apply(ApplyAll(f, h[..|h| - 1]), h[|h| - 1])
  {
  }

  class MetricsHandle {
    const requests: LabeledCounters
    const tokens: LabeledCounters
    const upstreamErrors: LabeledCounters
    const rateLimitRejections: LabeledCounters
    const budgetRejections: LabeledCounters

    ghost const Repr: set<object> := {requests, tokens, upstreamErrors, rateLimitRejections, budgetRejections}

    ghost predicate Valid() {
      && requests != tokens && requests != upstreamErrors && requests != rateLimitRejections
      && requests != budgetRejections && tokens != upstreamErrors && tokens != rateLimitRejections
      && tokens != budgetRejections && upstreamErrors != rateLimitRejections
      && upstreamErrors != budgetRejections && rateLimitRejections != budgetRejections
    }

    function View(): Families
      reads requests, tokens, upstreamErrors, rateLimitRejections, budgetRejections
    {
      Families(requests.inner, tokens.inner, upstreamErrors.inner, rateLimitRejections.inner, budgetRejections.inner)
    }

    constructor ()
      ensures Valid() && fresh(Repr) && View() == EMPTY
    {
      requests := new LabeledCounters();
      tokens := new LabeledCounters();
      upstreamErrors := new LabeledCounters();
      rateLimitRejections := new LabeledCounters();
      budgetRejections := new LabeledCounters();
    }

    method RecordRequest(backend: string, model: string, status: string)
      requires Valid()
      modifies requests
      ensures View() == Apply(old(View()), Request(backend, model, status))
    {
      AddAllOne(View(), Increments(Request(backend, model, status))[0]);
      requests.Inc(RequestLabel(backend, model, status));
    }

    method RecordTokens(key: string, usage: Usage)
      requires Valid()
      modifies tokens
      ensures View() == Apply(old(View()), TokenUse(key, usage))
    {
      ghost var incs := Increments(TokenUse(key, usage));
      ghost var start := View();
      for i := 0 to |KINDS|
        invariant View() == AddAll(start, incs[..i])
      {
        assert incs[i] == TokenIncrement(key, usage, KINDS[i]);
        assert incs[..i + 1][..i] == incs[..i];
        tokens.Add(TokenLabel(key, KINDS[i]), Amount(usage, KINDS[i]));
      }
      assert incs[..3] == incs;
    }

    method RecordUpstreamError(backend: string)
      requires Valid()
      modifies upstreamErrors
      ensures View() == Apply(old(View()), UpstreamError(backend))
    {
      AddAllOne(View(), Increments(UpstreamError(backend))[0]);
      upstreamErrors.Inc(BackendLabel(backend));
    }

    method RecordRateLimitRejection(key: string)
      requires Valid()
      modifies rateLimitRejections
      ensures View() == Apply(old(View()), RateLimited(key))
    {
      AddAllOne(View(), Increments(RateLimited(key))[0]);
      rateLimitRejections.Inc(KeyLabel(key));
    }

    method RecordBudgetRejection(key: string)
      requires Valid()
      modifies budgetRejections
      ensures View() == Apply(old(View()), OverBudget(key))
    {
      AddAllOne(View(), Increments(OverBudget(key))[0]);
      budgetRejections.Inc(KeyLabel(key));
    }
  }

  lemma AddAllOne(f: Families, inc: Increment)
    ensures AddAll(f, [inc]) == AddOne(f, inc)
  {
    assert [inc][..0] == [];
  }

  // -------------------------------------------------------------------------
  // Every counter is exact
  // -------------------------------------------------------------------------

  /** How often an event occurred. */
  function Count(h: seq<Event>, ev: Event): nat {
    if h == [] then 0 else Count(h[..|h| - 1], ev) + (if h[|h| - 1] == ev then 1 else 0)
  }

  /** All the tokens of one kind that were used under a key. */
  function TokensUsed(h: seq<Event>, key: string, kind: Kind): nat {
    if h == [] then 0
    else
      var last := h[|h| - 1];
      TokensUsed(h[..|h| - 1], key, kind)
      + (if last.TokenUse? && last.key == key then Amount(last.usage, kind) else 0)
  }

  function SumOf(incs: seq<Increment>, family: Family, labels: string): nat {
    if incs == [] then 0
    else
      var last := incs[|incs| - 1];
      SumOf(incs[..|incs| - 1], family, labels)
      + (if last.family == family && last.labels == labels then last.n else 0)
  }

  predicate Touches(incs: seq<Increment>, family: Family, labels: string) {
    exists i | 0 <= i < |incs| :: incs[i].family == family && incs[i].labels == labels
  }

  lemma GetSet(f: Families, family: Family, m: map<string, u64>, other: Family)
    ensures Get(Set(f, family, m), other) == if other == family then m else Get(f, other)
  {
  }

  lemma AddOneMeaning(f: Families, inc: Increment, family: Family, labels: string)
    ensures var hit := inc.family == family && inc.labels == labels;
            && Stored(Get(AddOne(f, inc), family), labels)
               == (if hit then WrapAdd(Stored(Get(f, family), labels), inc.n) else Stored(Get(f, family), labels))
            && (labels in Get(AddOne(f, inc), family) <==> labels in Get(f, family) || hit)
  {
    GetSet(f, inc.family, Bump(Get(f, inc.family), inc.labels, inc.n), family);
  }

  lemma TouchesLast(incs: seq<Increment>, family: Family, labels: string)
    requires incs != []
    ensures Touches(incs, family, labels)
       <==> Touches(incs[..|incs| - 1], family, labels)
            || (incs[|incs| - 1].family == family && incs[|incs| - 1].labels == labels)
  {
    var init := incs[..|incs| - 1];
    if i :| 0 <= i < |init| && init[i].family == family && init[i].labels == labels {
      assert incs[i] == init[i];
    }
    if i :| 0 <= i < |init| && incs[i].family == family && incs[i].labels == labels {
      assert init[i] == incs[i];
    }
  }

  lemma {:induction false} AddAllSums(f: Families, incs: seq<Increment>, family: Family, labels: string)
    ensures Stored(Get(AddAll(f, incs), family), labels)
         == (Stored(Get(f, family), labels) + SumOf(incs, family, labels)) % U64_MODULUS
  {
    if incs != [] {
      var init, last := incs[..|incs| - 1], incs[|incs| - 1];
      AddAllSums(f, init, family, labels);
      AddOneMeaning(AddAll(f, init), last, family, labels);
      WrapCongruence(Stored(Get(f, family), labels) + SumOf(init, family, labels), last.n);
    }
  }

  lemma {:induction false} AddAllTouches(f: Families, incs: seq<Increment>, family: Family, labels: string)
    ensures labels in Get(AddAll(f, incs), family)
       <==> labels in Get(f, family) || Touches(incs, family, labels)
  {
    if incs != [] {
      var init, last := incs[..|incs| - 1], incs[|incs| - 1];
      AddAllTouches(f, init, family, labels);
      AddOneMeaning(AddAll(f, init), last, family, labels);
      TouchesLast(incs, family, labels);
    }
  }

  lemma AddAllMeaning(f: Families, incs: seq<Increment>, family: Family, labels: string)
    ensures Stored(Get(AddAll(f, incs), family), labels)
         == (Stored(Get(f, family), labels) + SumOf(incs, family, labels)) % U64_MODULUS
    ensures labels in Get(AddAll(f, incs), family)
       <==> labels in Get(f, family) || Touches(incs, family, labels)
  {
    AddAllSums(f, incs, family, labels);
    AddAllTouches(f, incs, family, labels);
  }

  function MeasureOf(family: Family, labels: string): Families -> u64 {
    f => Stored(Get(f, family), labels)
  }

  function WeightOf(family: Family, labels: string): Event -> nat {
    ev => SumOf(Increments(ev), family, labels)
  }

  /** What a history adds to one counter. */
  function Contributed(h: seq<Event>, family: Family, labels: string): nat {
    TotalOf(WeightOf(family, labels), h)
  }

  /** Some event of the history touches the counter. */
  predicate TouchedBy(h: seq<Event>, family: Family, labels: string) {
    h != [] && (TouchedBy(h[..|h| - 1], family, labels) || Touches(Increments(h[|h| - 1]), family, labels))
  }

  lemma EventsAddWeight(family: Family, labels: string)
    ensures AddsWeight(Apply, MeasureOf(family, labels), WeightOf(family, labels))
  {
    forall f: Families, ev: Event
      ensures MeasureOf(family, labels)(Apply(f, ev))
           == (MeasureOf(family, labels)(f) + WeightOf(family, labels)(ev)) % U64_MODULUS
    {
      EventMoves(f, ev, family, labels);
    }
  }

  lemma EventMoves(f: Families, ev: Event, family: Family, labels: string)
    ensures MeasureOf(family, labels)(Apply(f, ev))
         == (MeasureOf(family, labels)(f) + WeightOf(family, labels)(ev)) % U64_MODULUS
  {
    AddAllSums(f, Increments(ev), family, labels);
  }

  /** Events move a counter by what they contribute to it, whatever it held. */
  lemma ApplyAllValue(f: Families, h: seq<Event>, family: Family, labels: string)
    ensures Stored(Get(ApplyAll(f, h), family), labels)
         == (Stored(Get(f, family), labels) + Contributed(h, family, labels)) % U64_MODULUS
  {
    EventsAddWeight(family, labels);
    FoldTotal(Apply, f, h, MeasureOf(family, labels), WeightOf(family, labels));
  }

  lemma AfterValue(h: seq<Event>, family: Family, labels: string)
    ensures Stored(Get(After(h), family), labels) == Contributed(h, family, labels) % U64_MODULUS
  {
    ApplyAllValue(EMPTY, h, family, labels);
  }

  lemma {:induction false} AfterPresence(h: seq<Event>, family: Family, labels: string)
    ensures labels in Get(After(h), family) <==> TouchedBy(h, family, labels)
  {
    if h != [] {
      var n := |h| - 1;
      ApplyLast(EMPTY, h);
      AfterPresence(h[..n], family, labels);
      AddAllMeaning(After(h[..n]), Increments(h[n]), family, labels);
    }
  }

  lemma SumOfOne(inc: Increment, family: Family, labels: string)
    ensures SumOf([inc], family, labels) == if inc.family == family && inc.labels == labels then inc.n else 0
    ensures Touches([inc], family, labels) <==> inc.family == family && inc.labels == labels
  {
    assert [inc][..0] == [];
    assert [inc][0] == inc;
  }

  lemma SumOfThree(a: Increment, b: Increment, c: Increment, family: Family, labels: string)
    ensures SumOf([a, b, c], family, labels)
         == SumOf([a], family, labels) + SumOf([b], family, labels) + SumOf([c], family, labels)
    ensures Touches([a, b, c], family, labels)
       <==> Touches([a], family, labels) || Touches([b], family, labels) || Touches([c], family, labels)
  {
    var all := [a, b, c];
    assert all[..2] == [a, b] && [a, b][..1] == [a];
    SumOfOne(a, family, labels);
    SumOfOne(b, family, labels);
    SumOfOne(c, family, labels);
    assert all[0] == a && all[1] == b && all[2] == c;
  }

  /** The single counter of an event that is not a token use. */
  function OwnIncrement(ev: Event): Increment
    requires !ev.TokenUse?
  {
    Increments(ev)[0]
  }

  /** No other event touches that counter: this is where the label encoding must be injective. */
  lemma OwnCounter(ev: Event, other: Event)
    requires !ev.TokenUse?
    ensures var own := OwnIncrement(ev);
            && SumOf(Increments(other), own.family, own.labels) == (if other == ev then 1 else 0)
            && (Touches(Increments(other), own.family, own.labels) <==> other == ev)
  {
    var own := OwnIncrement(ev);
    if other.TokenUse? {
      var incs := Increments(other);
      SumOfThree(incs[0], incs[1], incs[2], own.family, own.labels);
      SumOfOne(incs[0], own.family, own.labels);
      SumOfOne(incs[1], own.family, own.labels);
      SumOfOne(incs[2], own.family, own.labels);
    } else {
      SumOfOne(OwnIncrement(other), own.family, own.labels);
      if OwnIncrement(other).family == own.family && OwnIncrement(other).labels == own.labels {
        match ev
        case Request(b, m, s) => RequestLabelInjective(b, m, s, other.backend, other.model, other.status);
        case UpstreamError(b) => OneLabelInjective(b, other.backend);
        case RateLimited(k) => OneLabelInjective(k, other.key);
        case OverBudget(k) => OneLabelInjective(k, other.key);
      }
    }
  }

  lemma TokenCounterOne(key: string, kind: Kind, other: string, usage: Usage, otherKind: Kind)
    ensures var inc := TokenIncrement(other, usage, otherKind);
            && SumOf([inc], Tokens, TokenLabel(key, kind))
               == (if other == key && otherKind == kind then Amount(usage, kind) else 0)
            && (Touches([inc], Tokens, TokenLabel(key, kind)) <==> other == key && otherKind == kind)
  {
    SumOfOne(TokenIncrement(other, usage, otherKind), Tokens, TokenLabel(key, kind));
    if TokenLabel(other, otherKind) == TokenLabel(key, kind) {
      TokenLabelInjective(other, otherKind, key, kind);
    }
  }

  lemma TokenCounter(key: string, kind: Kind, ev: Event)
    ensures SumOf(Increments(ev), Tokens, TokenLabel(key, kind))
         == if ev.TokenUse? && ev.key == key then Amount(ev.usage, kind) else 0
    ensures Touches(Increments(ev), Tokens, TokenLabel(key, kind)) <==> ev.TokenUse? && ev.key == key
  {
    var incs := Increments(ev);
    if ev.TokenUse? {
      SumOfThree(incs[0], incs[1], incs[2], Tokens, TokenLabel(key, kind));
      TokenCounterOne(key, kind, ev.key, ev.usage, Prompt);
      TokenCounterOne(key, kind, ev.key, ev.usage, Completion);
      TokenCounterOne(key, kind, ev.key, ev.usage, Kind.Total);
    } else {
      SumOfOne(incs[0], Tokens, TokenLabel(key, kind));
    }
  }

  lemma {:induction false} CountIsContributed(h: seq<Event>, ev: Event)
    requires !ev.TokenUse?
    ensures Contributed(h, OwnIncrement(ev).family, OwnIncrement(ev).labels) == Count(h, ev)
  {
    if h != [] {
      CountIsContributed(h[..|h| - 1], ev);
      OwnCounter(ev, h[|h| - 1]);
    }
  }

  lemma {:induction false} TouchedIfOccurred(h: seq<Event>, ev: Event, family: Family, labels: string)
    requires forall other | other in h :: Touches(Increments(other), family, labels) <==> other == ev
    ensures TouchedBy(h, family, labels) <==> ev in h
  {
    if h != [] {
      var n := |h| - 1;
      assert h == h[..n] + [h[n]];
      TouchedIfOccurred(h[..n], ev, family, labels);
    }
  }

  /** The key used tokens at some point of the history. */
  predicate UsedTokens(h: seq<Event>, key: string) {
    exists i | 0 <= i < |h| :: h[i].TokenUse? && h[i].key == key
  }

  lemma UsedTokensLast(h: seq<Event>, key: string)
    requires h != []
    ensures UsedTokens(h, key)
       <==> UsedTokens(h[..|h| - 1], key) || (h[|h| - 1].TokenUse? && h[|h| - 1].key == key)
  {
    var init := h[..|h| - 1];
    if i :| 0 <= i < |init| && init[i].TokenUse? && init[i].key == key {
      assert h[i] == init[i];
    }
    if i :| 0 <= i < |init| && h[i].TokenUse? && h[i].key == key {
      assert init[i] == h[i];
    }
  }

  lemma {:induction false} TokensAreContributed(h: seq<Event>, key: string, kind: Kind)
    ensures Contributed(h, Tokens, TokenLabel(key, kind)) == TokensUsed(h, key, kind)
    ensures TouchedBy(h, Tokens, TokenLabel(key, kind)) <==> UsedTokens(h, key)
  {
    if h != [] {
      TokensAreContributed(h[..|h| - 1], key, kind);
      TokenCounter(key, kind, h[|h| - 1]);
      UsedTokensLast(h, key);
    }
  }

  /** EXACT COUNTS. After any history, the counter of an event exists exactly if the event occurred,
      and counts exactly its occurrences (modulo 2^64). */
  lemma ExactCount(h: seq<Event>, ev: Event)
    requires !ev.TokenUse?
    ensures var m := Get(After(h), OwnIncrement(ev).family);
            && (OwnIncrement(ev).labels in m <==> ev in h)
            && Stored(m, OwnIncrement(ev).labels) == Count(h, ev) % U64_MODULUS
  {
    AfterValue(h, OwnIncrement(ev).family, OwnIncrement(ev).labels);
    AfterPresence(h, OwnIncrement(ev).family, OwnIncrement(ev).labels);
    CountIsContributed(h, ev);
    forall other | other in h {
      OwnCounter(ev, other);
    }
    TouchedIfOccurred(h, ev, OwnIncrement(ev).family, OwnIncrement(ev).labels);
  }

  /** EXACT TOKEN SUMS. The counter of a key and kind exists exactly if the key used tokens at all,
      and holds exactly the tokens of that kind used under that key (modulo 2^64). */
  lemma ExactTokens(h: seq<Event>, key: string, kind: Kind)
    ensures TokenLabel(key, kind) in After(h).tokens <==> UsedTokens(h, key)
    ensures Stored(After(h).tokens, TokenLabel(key, kind)) == TokensUsed(h, key, kind) % U64_MODULUS
  {
    AfterValue(h, Tokens, TokenLabel(key, kind));
    AfterPresence(h, Tokens, TokenLabel(key, kind));
    TokensAreContributed(h, key, kind);
  }

  // -------------------------------------------------------------------------
  // The order of events does not matter
  // -------------------------------------------------------------------------

  lemma WrapAddCommutes(v: u64, n1: u64, n2: u64)
    ensures WrapAdd(WrapAdd(v, n1), n2) == WrapAdd(WrapAdd(v, n2), n1)
  {
    WrapCongruence(v + n1, n2);
    WrapCongruence(v + n2, n1);
  }

  lemma BumpCommutes(m: map<string, u64>, l1: string, n1: u64, l2: string, n2: u64)
    ensures Bump(Bump(m, l1, n1), l2, n2) == Bump(Bump(m, l2, n2), l1, n1)
  {
    if l1 == l2 {
      WrapAddCommutes(Stored(m, l1), n1, n2);
      SetTwice(m, l1, WrapAdd(Stored(m, l1), n1), WrapAdd(WrapAdd(Stored(m, l1), n1), n2));
      SetTwice(m, l1, WrapAdd(Stored(m, l1), n2), WrapAdd(WrapAdd(Stored(m, l1), n2), n1));
    }
  }

  lemma SetTwice(m: map<string, u64>, l: string, v: u64, w: u64)
    ensures m[l := v][l := w] == m[l := w]
  {
  }

  lemma AddCommutes(f: Families, x: Increment, y: Increment)
    ensures AddOne(AddOne(f, x), y) == AddOne(AddOne(f, y), x)
  {
    if x.family == y.family {
      BumpCommutes(Get(f, x.family), x.labels, x.n, y.labels, y.n);
    }
  }

  lemma {:induction false} AddAllThenOne(f: Families, xs: seq<Increment>, y: Increment)
    ensures AddOne(AddAll(f, xs), y) == AddAll(AddOne(f, y), xs)
  {
    if xs != [] {
      var n := |xs| - 1;
      AddCommutes(AddAll(f, xs[..n]), xs[n], y);
      AddAllThenOne(f, xs[..n], y);
    }
  }

  lemma {:induction false} AddAllCommutes(f: Families, xs: seq<Increment>, ys: seq<Increment>)
    ensures AddAll(AddAll(f, xs), ys) == AddAll(AddAll(f, ys), xs)
  {
    if ys != [] {
      var n := |ys| - 1;
      AddAllCommutes(f, xs, ys[..n]);
      AddAllThenOne(AddAll(f, ys[..n]), xs, ys[n]);
    }
  }

  lemma ApplyCommutes(f: Families, x: Event, y: Event)
    ensures Apply(Apply(f, x), y) == Apply(Apply(f, y), x)
  {
    AddAllCommutes(f, Increments(x), Increments(y));
  }

  lemma TokenCounterMoves(f: Families, events: seq<Event>, labels: string, used: nat)
    requires Contributed(events, Tokens, labels) == used
    ensures Stored(ApplyAll(f, events).tokens, labels) == (Stored(f.tokens, labels) + used) % U64_MODULUS
  {
    ApplyAllValue(f, events, Tokens, labels);
  }

  /** The counter exists in both or in neither, with the same value. */
  predicate SameCounter(m1: map<string, u64>, m2: map<string, u64>, labels: string) {
    (labels in m1 <==> labels in m2) && Stored(m1, labels) == Stored(m2, labels)
  }

  lemma OtherEventKeeps(f: Families, ev: Event, other: Event)
    requires !ev.TokenUse? && other != ev
    ensures var own := OwnIncrement(ev);
            SameCounter(Get(f, own.family), Get(Apply(f, other), own.family), own.labels)
  {
    var own := OwnIncrement(ev);
    OwnCounter(ev, other);
    AddAllMeaning(f, Increments(other), own.family, own.labels);
  }

  /** Events that do not include `ev` leave its counter alone. */
  lemma {:induction false} AbsentKeepsCounter(f: Families, events: seq<Event>, ev: Event)
    requires !ev.TokenUse? && ev !in events
    ensures var own := OwnIncrement(ev);
            SameCounter(Get(f, own.family), Get(ApplyAll(f, events), own.family), own.labels)
  {
    if events != [] {
      var init, last := events[..|events| - 1], events[|events| - 1];
      AbsentKeepsCounter(f, init, ev);
      OtherEventKeeps(ApplyAll(f, init), ev, last);
    }
  }

  /** PERMUTED HISTORIES leave the same counters. */
  lemma OrderIrrelevant(h1: seq<Event>, h2: seq<Event>)
    requires multiset(h1) == multiset(h2)
    ensures After(h1) == After(h2)
  {
    forall f: Families, x, y ensures Apply(Apply(f, x), y) == Apply(Apply(f, y), x) {
      ApplyCommutes(f, x, y);
    }
    FoldOrderIrrelevant(Apply, EMPTY, h1, h2);
  }

  // -------------------------------------------------------------------------
  // The token counters by name
  // -------------------------------------------------------------------------

  function PromptSum(h: seq<Event>, key: string): nat {
    if h == [] then 0
    else
      var last := h[|h| - 1];
      PromptSum(h[..|h| - 1], key) + (if last.TokenUse? && last.key == key then last.usage.prompt else 0)
  }

  function CompletionSum(h: seq<Event>, key: string): nat {
    if h == [] then 0
    else
      var last := h[|h| - 1];
      CompletionSum(h[..|h| - 1], key) + (if last.TokenUse? && last.key == key then last.usage.completion else 0)
  }

  function TotalSum(h: seq<Event>, key: string): nat {
    if h == [] then 0
    else
      var last := h[|h| - 1];
      TotalSum(h[..|h| - 1], key) + (if last.TokenUse? && last.key == key then last.usage.total else 0)
  }

  lemma {:induction false} PromptSumIs(h: seq<Event>, key: string)
    ensures TokensUsed(h, key, Prompt) == PromptSum(h, key)
  {
    if h != [] {
      PromptSumIs(h[..|h| - 1], key);
    }
  }

  lemma {:induction false} CompletionSumIs(h: seq<Event>, key: string)
    ensures TokensUsed(h, key, Completion) == CompletionSum(h, key)
  {
    if h != [] {
      CompletionSumIs(h[..|h| - 1], key);
    }
  }

  lemma {:induction false} TotalSumIs(h: seq<Event>, key: string)
    ensures TokensUsed(h, key, Kind.Total) == TotalSum(h, key)
  {
    if h != [] {
      TotalSumIs(h[..|h| - 1], key);
    }
  }

  lemma NamedTokens(h: seq<Event>, key: string, kind: Kind, name: string, sum: nat)
    requires KindName(kind) == name && TokensUsed(h, key, kind) == sum
    ensures Stored(After(h).tokens, LabelSet([Label("key", key), Label("kind", name)])) == sum % U64_MODULUS
  {
    TokenLabelIsSet(key, kind);
    ExactTokens(h, key, kind);
  }

  /** THE TOKEN COUNTERS, by name: under `prompt`, `completion` and `total` stand the sums of just
      those three numbers over the key's token uses, modulo 2^64. */
  lemma PromptTokens(h: seq<Event>, key: string)
    ensures Stored(After(h).tokens, LabelSet([Label("key", key), Label("kind", "prompt")])) == PromptSum(h, key) % U64_MODULUS
  {
    PromptSumIs(h, key);
    NamedTokens(h, key, Prompt, "prompt", PromptSum(h, key));
  }

  lemma CompletionTokens(h: seq<Event>, key: string)
    ensures Stored(After(h).tokens, LabelSet([Label("key", key), Label("kind", "completion")])) == CompletionSum(h, key) % U64_MODULUS
  {
    CompletionSumIs(h, key);
    NamedTokens(h, key, Completion, "completion", CompletionSum(h, key));
  }

  lemma TotalTokens(h: seq<Event>, key: string)
    ensures Stored(After(h).tokens, LabelSet([Label("key", key), Label("kind", "total")])) == TotalSum(h, key) % U64_MODULUS
  {
    TotalSumIs(h, key);
    NamedTokens(h, key, Kind.Total, "total", TotalSum(h, key));
  }

  /** Counting is multiplicity. */
  lemma {:induction false} CountIsMultiplicity(h: seq<Event>, ev: Event)
    ensures Count(h, ev) == multiset(h)[ev]
  {
    if h != [] {
      CountIsMultiplicity(h[..|h| - 1], ev);
      assert h == h[..|h| - 1] + [h[|h| - 1]];
    }
  }
}
