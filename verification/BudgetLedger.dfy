/** The budget ledger's objects (src/budget.rs), used by one thread at a time. */
module BudgetLedger {
  import opened Prelude
  import LedgerMachine

  /** A key's limits; `None` is unlimited. */
  datatype Limit = Limit(prompt: Option<u64>, completion: Option<u64>, total: Option<u64>)

  const UNLIMITED := Limit(None, None, None)

  datatype Exceeded = Exceeded(kind: Kind, used: u64, limit: u64)

  function LimitOf(limit: Limit, kind: Kind): Option<u64> {
    match kind
    case Prompt => limit.prompt
    case Completion => limit.completion
    case Total => limit.total
  }

  function AddTo(value: Usage, u: Usage): Usage {
    Usage(WrapAdd(value.prompt, u.prompt), WrapAdd(value.completion, u.completion), WrapAdd(value.total, u.total))
  }

  /** One dimension of `would_exceed`; the addition is the machine's. */
  predicate Refuses(value: Usage, limit: Limit, proposed: Usage, kind: Kind) {
    match LimitOf(limit, kind)
    case None => false
    case Some(max) => WrapAdd(Amount(value, kind), Amount(proposed, kind)) > max
  }

  /** The request fits: no limited dimension would go over, counted without wrapping. */
  predicate Fits(value: Usage, limit: Limit, proposed: Usage, kind: Kind) {
    match LimitOf(limit, kind)
    case None => true
    case Some(max) => Amount(value, kind) + Amount(proposed, kind) <= max
  }

  function Blame(value: Usage, limit: Limit, kind: Kind): Exceeded
    requires LimitOf(limit, kind).Some?
  {
    Exceeded(kind, Amount(value, kind), LimitOf(limit, kind).value)
  }

  /** `v` is the first refusing dimension in the order prompt, completion, total, if there is one. */
  ghost predicate FirstRefusal(value: Usage, limit: Limit, proposed: Usage, v: Option<Exceeded>) {
    match v
    case None => forall kind :: !Refuses(value, limit, proposed, kind)
    case Some(e) =>
      && Refuses(value, limit, proposed, e.kind) && e == Blame(value, limit, e.kind)
      && (e.kind != Prompt ==> !Refuses(value, limit, proposed, Prompt))
      && (e.kind == Kind.Total ==> !Refuses(value, limit, proposed, Completion))
  }

  /** A limited dimension whose sum does not fit in 64 bits and comes back under the limit. */
  predicate Slips(value: Usage, limit: Limit, proposed: Usage, kind: Kind) {
    LimitOf(limit, kind).Some?
    && U64_MODULUS <= Amount(value, kind) + Amount(proposed, kind) <= U64_MODULUS + LimitOf(limit, kind).value
  }

  /** The check refuses nothing that fits. It accepts exactly what fits, except in one case: some
      dimension slips under its limit by wrapping around and all the others fit or slip too. */
  lemma CheckExact(value: Usage, limit: Limit, proposed: Usage, v: Option<Exceeded>)
    requires FirstRefusal(value, limit, proposed, v)
    ensures (forall kind :: Fits(value, limit, proposed, kind)) ==> v == None
    ensures (v == None <==> forall kind :: Fits(value, limit, proposed, kind))
       <==> !((exists kind :: Slips(value, limit, proposed, kind))
              && forall kind :: Fits(value, limit, proposed, kind) || Slips(value, limit, proposed, kind))
  {
    forall kind
      ensures Refuses(value, limit, proposed, kind)
         <==> !Fits(value, limit, proposed, kind) && !Slips(value, limit, proposed, kind)
      ensures !(Fits(value, limit, proposed, kind) && Slips(value, limit, proposed, kind))
    {
    }
  }

  /** An exhausted budget at the top of the range lets one more token through. */
  lemma WrappedCheckErrs()
    ensures var top: u64 := U64_MODULUS - 1;
            var (value, limit, proposed) := (Usage(0, 0, top), Limit(None, None, Some(top)), Usage(0, 0, 1));
            FirstRefusal(value, limit, proposed, None) && !Fits(value, limit, proposed, Kind.Total)
  {
  }

  class KeyCounters {
    var prompt: u64
    var completion: u64
    var total: u64

    function Value(): Usage
      reads this
    {
      Usage(prompt, completion, total)
    }

    constructor ()
      ensures Value() == Usage(0, 0, 0)
    {
      prompt, completion, total := 0, 0, 0;
    }

    method AddUsage(u: Usage)
      modifies this
      ensures Value() == AddTo(old(Value()), u)
    {
      prompt := WrapAdd(prompt, u.prompt);
      completion := WrapAdd(completion, u.completion);
      total := WrapAdd(total, u.total);
    }

    method Restore(snap: Usage)
      modifies this
      ensures Value() == snap
    {
      prompt := snap.prompt;
      completion := snap.completion;
      total := snap.total;
    }

    method WouldExceed(limit: Limit, proposed: Usage) returns (v: Option<Exceeded>)
      ensures FirstRefusal(Value(), limit, proposed, v)
    {
      if limit.prompt.Some? && WrapAdd(prompt, proposed.prompt) > limit.prompt.value {
        return Some(Exceeded(Prompt, prompt, limit.prompt.value));
      }
      if limit.completion.Some? && WrapAdd(completion, proposed.completion) > limit.completion.value {
        return Some(Exceeded(Completion, completion, limit.completion.value));
      }
      if limit.total.Some? && WrapAdd(total, proposed.total) > limit.total.value {
        return Some(Exceeded(Kind.Total, total, limit.total.value));
      }
      return None;
    }
  }

  /** What is stored for a key, zero before its first use. */
  function Stored(view: map<string, Usage>, key: string): Usage {
    if key in view then view[key] else Usage(0, 0, 0)
  }

  class Ledger {
    const periodStart: u64
    const limits: map<string, Limit>
    var counters: map<string, KeyCounters>

    /** Different keys count in different objects. */
    ghost predicate Valid()
      reads this
    {
      forall k1, k2 | k1 in counters && k2 in counters && k1 != k2 :: counters[k1] != counters[k2]
    }

    function View(): map<string, Usage>
      reads this, counters.Values
    {
      map k | k in counters :: counters[k].Value()
    }

    constructor (limits: map<string, Limit>, periodStart: u64, codec: LedgerMachine.Codec, path: Option<string>)
      ensures Valid() && fresh(counters.Values)
      ensures this.limits == limits && this.periodStart == periodStart
      ensures View() == LedgerMachine.Restore(codec, path, periodStart)
    {
      this.limits := limits;
      this.periodStart := periodStart;
      counters := map[];
      new;
      var entries := LedgerMachine.Restore(codec, path, periodStart);
      var left := entries.Keys;
      while left != {}
        invariant left <= entries.Keys && counters.Keys == entries.Keys - left
        invariant Valid() && fresh(counters.Values)
        invariant forall k | k in counters :: counters[k].Value() == entries[k]
        decreases left
      {
        var key :| key in left;
        ghost var before := counters;
        var c := new KeyCounters();
        c.Restore(entries[key]);
        counters := counters[key := c];
        assert counters.Values <= before.Values + {c};
        left := left - {key};
      }
    }

    method CountersFor(key: string) returns (c: KeyCounters)
      requires Valid()
      modifies this`counters
      ensures Valid() && key in counters && counters[key] == c
      ensures key in old(counters) ==> counters == old(counters)
      ensures key !in old(counters) ==> fresh(c) && c.Value() == Usage(0, 0, 0) && counters == old(counters)[key := c]
    {
      if key in counters {
        return counters[key];
      }
      c := new KeyCounters();
      counters := counters[key := c];
    }

    method Check(key: string, proposed: Usage) returns (v: Option<Exceeded>)
      requires Valid()
      modifies this`counters
      ensures Valid() && fresh(counters.Values - old(counters.Values))
      ensures View() == old(View())[key := Stored(old(View()), key)]
      ensures FirstRefusal(Stored(old(View()), key), if key in limits then limits[key] else UNLIMITED, proposed, v)
    {
      var limit := if key in limits then limits[key] else UNLIMITED;
      var c := CountersFor(key);
      v := c.WouldExceed(limit, proposed);
    }

    method Record(key: string, usage: Usage)
      requires Valid()
      modifies this`counters, counters.Values
      ensures Valid() && fresh(counters.Values - old(counters.Values))
      ensures View() == old(View())[key := AddTo(Stored(old(View()), key), usage)]
    {
      var c := CountersFor(key);
      c.AddUsage(usage);
    }

    method UsageFor(key: string) returns (u: Option<Usage>)
      ensures u == if key in View() then Some(View()[key]) else None
    {
      if key in counters {
        u := Some(counters[key].Value());
      } else {
        u := None;
      }
    }

    /** The snapshot that `flush` serialises. */
    method TakeSnapshot() returns (snap: LedgerMachine.Snapshot)
      ensures snap == LedgerMachine.Snapshot(periodStart, View())
    {
      var entries: map<string, Usage> := map[];
      var left := counters.Keys;
      while left != {}
        invariant left <= counters.Keys && entries.Keys == counters.Keys - left
        invariant forall k | k in entries :: entries[k] == View()[k]
        decreases left
      {
        var key :| key in left;
        entries := entries[key := counters[key].Value()];
        left := left - {key};
      }
      snap := LedgerMachine.Snapshot(periodStart, entries);
    }
  }

  /** RESTART. A ledger rebuilt from the snapshot of another one holds exactly what that one held if
      its period is the same, and nothing otherwise. */
  method Rebuild(ledger: Ledger, codec: LedgerMachine.Codec, limits: map<string, Limit>, periodStart: u64)
    returns (rebuilt: Ledger)
    requires LedgerMachine.RoundTrips(codec)
    ensures rebuilt.Valid() && fresh(rebuilt) && fresh(rebuilt.counters.Values)
    ensures rebuilt.periodStart == periodStart && rebuilt.limits == limits
    ensures rebuilt.View() == if periodStart == ledger.periodStart then ledger.View() else map[]
  {
    var snap := ledger.TakeSnapshot();
    rebuilt := new Ledger(limits, periodStart, codec, Some(codec.encode(snap)));
  }

  /** THE CHECK, field by field: prompt, completion and total tokens are held against their own limits
      in this order; the first one over its limit is reported with its stored value and its limit. */
  lemma CheckByField(value: Usage, limit: Limit, proposed: Usage, v: Option<Exceeded>)
    requires FirstRefusal(value, limit, proposed, v)
    ensures v ==
      if limit.prompt.Some? && (value.prompt + proposed.prompt) % U64_MODULUS > limit.prompt.value
      then Some(Exceeded(kind := Prompt, used := value.prompt, limit := limit.prompt.value))
      else if limit.completion.Some? && (value.completion + proposed.completion) % U64_MODULUS > limit.completion.value
      then Some(Exceeded(kind := Completion, used := value.completion, limit := limit.completion.value))
      else if limit.total.Some? && (value.total + proposed.total) % U64_MODULUS > limit.total.value
      then Some(Exceeded(kind := Kind.Total, used := value.total, limit := limit.total.value))
      else None
  {
    assert Refuses(value, limit, proposed, Prompt)
      <==> limit.prompt.Some? && (value.prompt + proposed.prompt) % U64_MODULUS > limit.prompt.value;
    assert Refuses(value, limit, proposed, Completion)
      <==> limit.completion.Some? && (value.completion + proposed.completion) % U64_MODULUS > limit.completion.value;
    assert Refuses(value, limit, proposed, Kind.Total)
      <==> limit.total.Some? && (value.total + proposed.total) % U64_MODULUS > limit.total.value;
  }

  /** A key without a configured limit is never refused. */
  lemma UnlimitedAdmits(value: Usage, proposed: Usage, v: Option<Exceeded>)
    requires FirstRefusal(value, UNLIMITED, proposed, v)
    ensures v == None
  {
    CheckByField(value, UNLIMITED, proposed, v);
  }

  lemma AddToByField(value: Usage, u: Usage)
    ensures AddTo(value, u) == Usage(prompt := (value.prompt + u.prompt) % U64_MODULUS,
                                     completion := (value.completion + u.completion) % U64_MODULUS,
                                     total := (value.total + u.total) % U64_MODULUS)
  {
  }
}
