/** The budget ledger (src/budget.rs) as a step system: any number of `record` calls, one flusher
    and a crash at any point. Each step is one critical section or one atomic access. */
module LedgerMachine {
  import opened Prelude

  type Key = string

  /** Where a `record` call stands: the read-locked lookup, the write-locked insert, three fetch-adds. */
  datatype Pc = Lookup | Insert | AddPrompt | AddCompletion | AddTotal | Done

  /** One call of `record`; `obj` is the counter object it holds once it is adding. */
  datatype Call = Call(key: Key, usage: Usage, pc: Pc, obj: nat)

  /** A counter object; `owner` is the key it was created for. */
  datatype Object = Object(owner: Key, value: Usage)

  datatype Memory = Memory(table: map<Key, nat>, heap: seq<Object>, calls: seq<Call>)

  function SetAmount(u: Usage, kind: Kind, v: u64): Usage {
    match kind
    case Prompt => u.(prompt := v)
    case Completion => u.(completion := v)
    case Total => u.(total := v)
  }

  /** `fetch_add` on one field of one object. */
  function FetchAdd(heap: seq<Object>, id: nat, kind: Kind, n: u64): seq<Object> {
    if id < |heap| then
      var v := heap[id].value;
      heap[id := heap[id].(value := SetAmount(v, kind, WrapAdd(Amount(v, kind), n)))]
    else heap
  }

  /** The next atomic step of call `i`; `insertable` is false while a flush holds the read lock. */
  function Advance(m: Memory, i: nat, insertable: bool): Memory
    requires i < |m.calls|
  {
    var c := m.calls[i];
    match c.pc
    case Lookup =>
      if c.key in m.table then m.(calls := m.calls[i := c.(pc := AddPrompt, obj := m.table[c.key])])
      else m.(calls := m.calls[i := c.(pc := Insert)])
    case Insert =>
      if !insertable then m
      else if c.key in m.table then m.(calls := m.calls[i := c.(pc := AddPrompt, obj := m.table[c.key])])
      else Memory(m.table[c.key := |m.heap|], m.heap + [Object(c.key, Usage(0, 0, 0))],
                  m.calls[i := c.(pc := AddPrompt, obj := |m.heap|)])
    case AddPrompt =>
      m.(heap := FetchAdd(m.heap, c.obj, Prompt, c.usage.prompt), calls := m.calls[i := c.(pc := AddCompletion)])
    case AddCompletion =>
      m.(heap := FetchAdd(m.heap, c.obj, Completion, c.usage.completion), calls := m.calls[i := c.(pc := AddTotal)])
    case AddTotal =>
      m.(heap := FetchAdd(m.heap, c.obj, Kind.Total, c.usage.total), calls := m.calls[i := c.(pc := Done)])
    case Done => m
  }

  // -------------------------------------------------------------------------
  // Flushing and the disk
  // -------------------------------------------------------------------------

  datatype Snapshot = Snapshot(periodStart: u64, entries: map<Key, Usage>)

  /** One flush: what it wrote, and the calls as they stood when it began and ended loading. */
  datatype Flush = Flush(snap: Snapshot, began: seq<Call>, ended: seq<Call>)

  datatype Flusher =
    | Idle
    | Loading(began: seq<Call>, loaded: map<(Key, Kind), u64>)
    | Writing(flush: Flush)
    | Renamed(flush: Flush)

  datatype Disk = Disk(path: Option<string>, tmp: Option<string>)

  /** `lastDone` is the last flush that returned successfully. */
  datatype State = State(mem: Memory, flusher: Flusher, disk: Disk, lastDone: Option<Flush>)

  /** The JSON text format of a snapshot. */
  datatype Codec = Codec(encode: Snapshot -> string, decode: string -> Option<Snapshot>)

  ghost predicate RoundTrips(codec: Codec) {
    forall s :: codec.decode(codec.encode(s)) == Some(s)
  }

  datatype Step =
    | Spawn(key: Key, usage: Usage)
    | Run(call: nat)
    | FlushBegin
    | LoadField(key: Key, kind: Kind)
    | FlushSerialize
    | WriteTmp(upTo: nat)
    | Rename
    | Return
    | Fail

  ghost predicate AllLoaded(m: Memory, loaded: map<(Key, Kind), u64>) {
    forall k, kind | k in m.table :: (k, kind) in loaded
  }

  ghost function Entries(m: Memory, loaded: map<(Key, Kind), u64>): map<Key, Usage>
    requires AllLoaded(m, loaded)
  {
    map k | k in m.table :: Usage(loaded[(k, Prompt)], loaded[(k, Completion)], loaded[(k, Kind.Total)])
  }

  /** The effect of a step; a step that is not possible changes nothing. */
  ghost function Do(codec: Codec, period: u64, s: State, step: Step): State {
    var m := s.mem;
    match step
    case Spawn(key, usage) => s.(mem := m.(calls := m.calls + [Call(key, usage, Lookup, 0)]))
    case Run(i) => if i < |m.calls| then s.(mem := Advance(m, i, !s.flusher.Loading?)) else s
    case FlushBegin => if s.flusher.Idle? then s.(flusher := Loading(m.calls, map[])) else s
    case LoadField(k, kind) =>
      if s.flusher.Loading? && k in m.table && m.table[k] < |m.heap| then
        var v := Amount(m.heap[m.table[k]].value, kind);
        s.(flusher := s.flusher.(loaded := s.flusher.loaded[(k, kind) := v]))
      else s
    case FlushSerialize =>
      if s.flusher.Loading? && AllLoaded(m, s.flusher.loaded) then
        var snap := Snapshot(period, Entries(m, s.flusher.loaded));
        s.(flusher := Writing(Flush(snap, s.flusher.began, m.calls)))
      else s
    case WriteTmp(n) =>
      if s.flusher.Writing? && n <= |codec.encode(s.flusher.flush.snap)| then
        s.(disk := s.disk.(tmp := Some(codec.encode(s.flusher.flush.snap)[..n])))
      else s
    case Rename =>
      if s.flusher.Writing? && s.disk.tmp == Some(codec.encode(s.flusher.flush.snap)) then
        s.(flusher := Renamed(s.flusher.flush), disk := Disk(s.disk.tmp, None))
      else s
    case Return =>
      if s.flusher.Renamed? then s.(flusher := Idle, lastDone := Some(s.flusher.flush)) else s
    case Fail => if s.flusher.Writing? then s.(flusher := Idle) else s
  }

  ghost function Exec(codec: Codec, period: u64, s: State, steps: seq<Step>): State {
    if steps == [] then s
    else Do(codec, period, Exec(codec, period, s, steps[..|steps| - 1]), steps[|steps| - 1])
  }

  /** What `new` restores in a period from the text found at the snapshot path. */
  function Restore(codec: Codec, path: Option<string>, period: u64): map<Key, Usage> {
    match path
    case None => map[]
    case Some(text) =>
      match codec.decode(text)
      case None => map[]
      case Some(snap) => if snap.periodStart == period then snap.entries else map[]
  }

  /** A ledger just built by `new`: one object for each restored key, no call under way. */
  ghost predicate Fresh(codec: Codec, period: u64, s: State) {
    var restored := Restore(codec, s.disk.path, period);
    && s.flusher == Idle && s.lastDone == None && s.mem.calls == []
    && s.mem.table.Keys == restored.Keys
    && Linked(s.mem)
    && forall k | k in restored :: s.mem.heap[s.mem.table[k]].value == restored[k]
  }

  // -------------------------------------------------------------------------
  // One object per key, and conservation
  // -------------------------------------------------------------------------

  /** Table and objects point at each other: a key has at most one object, ever. */
  ghost predicate Linked(m: Memory) {
    && (forall k | k in m.table :: m.table[k] < |m.heap| && m.heap[m.table[k]].owner == k)
    && (forall i | 0 <= i < |m.heap| :: m.heap[i].owner in m.table && m.table[m.heap[i].owner] == i)
  }

  predicate Adding(pc: Pc) {
    pc == AddPrompt || pc == AddCompletion || pc == AddTotal
  }

  /** Every call that is adding holds the object of its key. */
  ghost predicate Held(m: Memory) {
    forall i | 0 <= i < |m.calls| ::
      && (Adding(m.calls[i].pc) ==> m.calls[i].key in m.table && m.calls[i].obj == m.table[m.calls[i].key])
      && (m.calls[i].pc == Done ==> m.calls[i].key in m.table)
  }

  predicate HasAdded(pc: Pc, kind: Kind) {
    match kind
    case Prompt => pc == AddCompletion || pc == AddTotal || pc == Done
    case Completion => pc == AddTotal || pc == Done
    case Total => pc == Done
  }

  function Share(c: Call, key: Key, kind: Kind): nat {
    if c.key == key && HasAdded(c.pc, kind) then Amount(c.usage, kind) else 0
  }

  /** What the calls have already added to one field, counted without wrapping. */
  function Applied(calls: seq<Call>, key: Key, kind: Kind): nat {
    if calls == [] then 0
    else Applied(calls[..|calls| - 1], key, kind) + Share(calls[|calls| - 1], key, kind)
  }

  function ValueOf(entries: map<Key, Usage>, key: Key, kind: Kind): u64 {
    if key in entries then Amount(entries[key], kind) else 0
  }

  /** The live total of a field, counted without wrapping. */
  function LiveTotal(restored: map<Key, Usage>, calls: seq<Call>, key: Key, kind: Kind): nat {
    ValueOf(restored, key, kind) + Applied(calls, key, kind)
  }

  /** Every stored field is its live total modulo 2^64; a key without an object has total 0. */
  ghost predicate Conserved(restored: map<Key, Usage>, m: Memory)
    requires Linked(m)
  {
    forall k: Key, kind: Kind ::
      if k in m.table
      then Amount(m.heap[m.table[k]].value, kind) == LiveTotal(restored, m.calls, k, kind) % U64_MODULUS
      else LiveTotal(restored, m.calls, k, kind) == 0
  }

  ghost predicate MemoryInv(restored: map<Key, Usage>, m: Memory) {
    Linked(m) && Held(m) && Conserved(restored, m)
  }

  lemma {:induction false} AppliedUpdate(calls: seq<Call>, i: nat, c: Call, key: Key, kind: Kind)
    requires i < |calls|
    ensures Applied(calls[i := c], key, kind)
         == Applied(calls, key, kind) - Share(calls[i], key, kind) + Share(c, key, kind)
    decreases |calls|
  {
    var n := |calls| - 1;
    if i == n {
      assert calls[i := c][..n] == calls[..n];
    } else {
      assert calls[i := c][..n] == calls[..n][i := c];
      AppliedUpdate(calls[..n], i, c, key, kind);
    }
  }

  lemma AppliedSpawn(calls: seq<Call>, c: Call, key: Key, kind: Kind)
    requires c.pc == Lookup
    ensures Applied(calls + [c], key, kind) == Applied(calls, key, kind)
  {
    assert (calls + [c])[..|calls|] == calls;
  }

  /** Moving a call on without an addition keeps every live total. */
  lemma MoveKeepsTotals(restored: map<Key, Usage>, calls: seq<Call>, i: nat, c: Call)
    requires i < |calls| && c.key == calls[i].key && c.usage == calls[i].usage
    requires forall kind :: !HasAdded(calls[i].pc, kind) && !HasAdded(c.pc, kind)
    ensures forall k, kind :: LiveTotal(restored, calls[i := c], k, kind) == LiveTotal(restored, calls, k, kind)
  {
    forall k, kind
      ensures LiveTotal(restored, calls[i := c], k, kind) == LiveTotal(restored, calls, k, kind)
    {
      AppliedUpdate(calls, i, c, k, kind);
    }
  }

  lemma LookupStep(restored: map<Key, Usage>, m: Memory, i: nat, insertable: bool)
    requires MemoryInv(restored, m) && i < |m.calls| && m.calls[i].pc in {Lookup, Insert}
    ensures MemoryInv(restored, Advance(m, i, insertable))
  {
    var m' := Advance(m, i, insertable);
    if m' != m {
      var c := m'.calls[i];
      assert m'.calls == m.calls[i := c];
      MoveKeepsTotals(restored, m.calls, i, c);
      forall k: Key, kind: Kind
        ensures LiveTotal(restored, m'.calls, k, kind) == LiveTotal(restored, m.calls, k, kind)
      {
      }
      forall kind ensures Amount(Usage(0, 0, 0), kind) == 0 {
      }
    }
  }

  /** The field a call adds to next. */
  function NextKind(pc: Pc): Kind
    requires Adding(pc)
  {
    match pc case AddPrompt => Prompt case AddCompletion => Completion case _ => Kind.Total
  }

  lemma SetThenGet(u: Usage, kind: Kind, v: u64, other: Kind)
    ensures Amount(SetAmount(u, kind, v), other) == if other == kind then v else Amount(u, other)
  {
  }

  /** `Advance` adds one field of one object and nothing else. */
  lemma AddKeepsOthers(m: Memory, i: nat)
    requires Linked(m) && Held(m) && i < |m.calls| && Adding(m.calls[i].pc)
    ensures var c := m.calls[i];
            var m' := Advance(m, i, true);
            && Linked(m') && Held(m') && m'.table == m.table
            && m' == Advance(m, i, false)
            && forall k, kind | k in m.table ::
                 Amount(m'.heap[m.table[k]].value, kind)
                 == if k == c.key && kind == NextKind(c.pc)
                    then WrapAdd(Amount(m.heap[m.table[k]].value, kind), Amount(c.usage, kind))
                    else Amount(m.heap[m.table[k]].value, kind)
  {
    var c := m.calls[i];
    var v := m.heap[c.obj].value;
    var field := NextKind(c.pc);
    forall kind
      ensures Amount(SetAmount(v, field, WrapAdd(Amount(v, field), Amount(c.usage, field))), kind)
           == if kind == field then WrapAdd(Amount(v, kind), Amount(c.usage, kind)) else Amount(v, kind)
    {
      SetThenGet(v, field, WrapAdd(Amount(v, field), Amount(c.usage, field)), kind);
    }
    assert Advance(m, i, true).heap == FetchAdd(m.heap, c.obj, field, Amount(c.usage, field));
  }

  lemma AddMovesTotal(restored: map<Key, Usage>, m: Memory, i: nat, k: Key, kind: Kind)
    requires i < |m.calls| && Adding(m.calls[i].pc)
    ensures var c := m.calls[i];
            LiveTotal(restored, Advance(m, i, true).calls, k, kind)
            == LiveTotal(restored, m.calls, k, kind)
               + (if k == c.key && kind == NextKind(c.pc) then Amount(c.usage, kind) else 0)
  {
    AppliedUpdate(m.calls, i, Advance(m, i, true).calls[i], k, kind);
  }

  lemma AddStep(restored: map<Key, Usage>, m: Memory, i: nat)
    requires MemoryInv(restored, m) && i < |m.calls| && Adding(m.calls[i].pc)
    ensures MemoryInv(restored, Advance(m, i, true)) && Advance(m, i, false) == Advance(m, i, true)
  {
    AddKeepsOthers(m, i);
    var m' := Advance(m, i, true);
    forall k: Key, kind: Kind
      ensures if k in m.table
              then Amount(m'.heap[m.table[k]].value, kind) == LiveTotal(restored, m'.calls, k, kind) % U64_MODULUS
              else LiveTotal(restored, m'.calls, k, kind) == 0
    {
      AddStepField(restored, m, i, k, kind);
    }
  }

  lemma AddStepField(restored: map<Key, Usage>, m: Memory, i: nat, k: Key, kind: Kind)
    requires MemoryInv(restored, m) && i < |m.calls| && Adding(m.calls[i].pc)
    ensures var m' := Advance(m, i, true);
            && m'.table == m.table && |m'.heap| == |m.heap|
            && if k in m.table
               then Amount(m'.heap[m.table[k]].value, kind) == LiveTotal(restored, m'.calls, k, kind) % U64_MODULUS
               else LiveTotal(restored, m'.calls, k, kind) == 0
  {
    AddKeepsOthers(m, i);
    AddMovesTotal(restored, m, i, k, kind);
    WrapCongruence(LiveTotal(restored, m.calls, k, kind), Amount(m.calls[i].usage, kind));
  }

  lemma AdvanceKeeps(restored: map<Key, Usage>, m: Memory, i: nat, insertable: bool)
    requires MemoryInv(restored, m) && i < |m.calls|
    ensures MemoryInv(restored, Advance(m, i, insertable))
  {
    if Adding(m.calls[i].pc) {
      AddStep(restored, m, i);
    } else if m.calls[i].pc != Done {
      LookupStep(restored, m, i, insertable);
    }
  }

  lemma SpawnKeeps(restored: map<Key, Usage>, m: Memory, key: Key, usage: Usage)
    requires MemoryInv(restored, m)
    ensures MemoryInv(restored, m.(calls := m.calls + [Call(key, usage, Lookup, 0)]))
  {
    var calls := m.calls + [Call(key, usage, Lookup, 0)];
    forall k, kind ensures LiveTotal(restored, calls, k, kind) == LiveTotal(restored, m.calls, k, kind) {
      AppliedSpawn(m.calls, Call(key, usage, Lookup, 0), k, kind);
    }
  }

  lemma FreshIsConserved(codec: Codec, period: u64, s: State)
    requires Fresh(codec, period, s)
    ensures MemoryInv(Restore(codec, s.disk.path, period), s.mem)
  {
  }

  lemma {:induction false} MemoryInvHolds(codec: Codec, period: u64, s: State, steps: seq<Step>)
    requires Fresh(codec, period, s)
    ensures MemoryInv(Restore(codec, s.disk.path, period), Exec(codec, period, s, steps).mem)
  {
    var restored := Restore(codec, s.disk.path, period);
    if steps == [] {
      FreshIsConserved(codec, period, s);
    } else {
      var n := |steps| - 1;
      MemoryInvHolds(codec, period, s, steps[..n]);
      var mid := Exec(codec, period, s, steps[..n]);
      match steps[n]
      case Spawn(key, usage) => SpawnKeeps(restored, mid.mem, key, usage);
      case Run(i) =>
        if i < |mid.mem.calls| {
          AdvanceKeeps(restored, mid.mem, i, !mid.flusher.Loading?);
        }
      case _ =>
    }
  }

  /** AT MOST ONE COUNTER OBJECT PER KEY, whatever the interleaving. */
  lemma OneObjectPerKey(codec: Codec, period: u64, s: State, steps: seq<Step>, i: nat, j: nat)
    requires Fresh(codec, period, s)
    requires var heap := Exec(codec, period, s, steps).mem.heap;
             i < |heap| && j < |heap| && heap[i].owner == heap[j].owner
    ensures i == j
  {
    MemoryInvHolds(codec, period, s, steps);
  }

  /** What the `record` calls made in a run add up to, read off the steps alone. */
  function Recorded(steps: seq<Step>, key: Key, kind: Kind): nat {
    if steps == [] then 0
    else
      var last := steps[|steps| - 1];
      Recorded(steps[..|steps| - 1], key, kind)
      + (if last.Spawn? && last.key == key then Amount(last.usage, kind) else 0)
  }

  /** What the calls will have added once they are all done. */
  function Requested(calls: seq<Call>, key: Key, kind: Kind): nat {
    if calls == [] then 0
    else
      var c := calls[|calls| - 1];
      Requested(calls[..|calls| - 1], key, kind) + (if c.key == key then Amount(c.usage, kind) else 0)
  }

  lemma {:induction false} RequestedUpdate(calls: seq<Call>, i: nat, c: Call, key: Key, kind: Kind)
    requires i < |calls| && c.key == calls[i].key && c.usage == calls[i].usage
    ensures Requested(calls[i := c], key, kind) == Requested(calls, key, kind)
    decreases |calls|
  {
    var n := |calls| - 1;
    if i == n {
      assert calls[i := c][..n] == calls[..n];
    } else {
      assert calls[i := c][..n] == calls[..n][i := c];
      RequestedUpdate(calls[..n], i, c, key, kind);
    }
  }

  lemma {:induction false} RequestedIsRecorded(codec: Codec, period: u64, s: State, steps: seq<Step>, key: Key, kind: Kind)
    requires s.mem.calls == []
    ensures Requested(Exec(codec, period, s, steps).mem.calls, key, kind) == Recorded(steps, key, kind)
  {
    if steps != [] {
      var init, last := steps[..|steps| - 1], steps[|steps| - 1];
      assert init + [last] == steps;
      RequestedIsRecorded(codec, period, s, init, key, kind);
      StepRequests(codec, period, Exec(codec, period, s, init), last, key, kind);
      ExecSnoc(codec, period, s, init, last);
      RecordedSnoc(init, last, key, kind);
    }
  }

  lemma RecordedSnoc(steps: seq<Step>, step: Step, key: Key, kind: Kind)
    ensures Recorded(steps + [step], key, kind)
         == Recorded(steps, key, kind) + (if step.Spawn? && step.key == key then Amount(step.usage, kind) else 0)
  {
    assert (steps + [step])[..|steps|] == steps;
  }

  lemma SpawnRequests(calls: seq<Call>, c: Call, key: Key, kind: Kind)
    ensures Requested(calls + [c], key, kind)
         == Requested(calls, key, kind) + (if c.key == key then Amount(c.usage, kind) else 0)
  {
    assert (calls + [c])[..|calls|] == calls;
  }

  lemma RunRequests(m: Memory, i: nat, insertable: bool, key: Key, kind: Kind)
    requires i < |m.calls|
    ensures Requested(Advance(m, i, insertable).calls, key, kind) == Requested(m.calls, key, kind)
  {
    var after := Advance(m, i, insertable).calls;
    assert after == m.calls[i := after[i]];
    RequestedUpdate(m.calls, i, after[i], key, kind);
  }

  /** A step requests what it spawns. */
  lemma StepRequests(codec: Codec, period: u64, s: State, step: Step, key: Key, kind: Kind)
    ensures Requested(Do(codec, period, s, step).mem.calls, key, kind)
         == Requested(s.mem.calls, key, kind)
            + (if step.Spawn? && step.key == key then Amount(step.usage, kind) else 0)
  {
    match step
    case Spawn(k, usage) => SpawnRequests(s.mem.calls, Call(k, usage, Lookup, 0), key, kind);
    case Run(i) =>
      if i < |s.mem.calls| {
        RunRequests(s.mem, i, !s.flusher.Loading?, key, kind);
      }
    case _ =>
  }

  ghost predicate Quiet(calls: seq<Call>) {
    forall i | 0 <= i < |calls| :: calls[i].pc == Done
  }

  lemma {:induction false} QuietApplied(calls: seq<Call>, key: Key, kind: Kind)
    requires Quiet(calls)
    ensures Applied(calls, key, kind) == Requested(calls, key, kind)
  {
    if calls != [] {
      QuietApplied(calls[..|calls| - 1], key, kind);
    }
  }

  /** What `usage_for` would load for one field now. */
  function LiveValue(m: Memory, key: Key, kind: Kind): u64 {
    if key in m.table && m.table[key] < |m.heap| then Amount(m.heap[m.table[key]].value, kind) else 0
  }

  lemma LiveValueIsTotal(restored: map<Key, Usage>, m: Memory, key: Key, kind: Kind)
    requires MemoryInv(restored, m)
    ensures LiveValue(m, key, kind) == LiveTotal(restored, m.calls, key, kind) % U64_MODULUS
  {
  }

  lemma QuietValue(restored: map<Key, Usage>, m: Memory, key: Key, kind: Kind)
    requires MemoryInv(restored, m) && Quiet(m.calls)
    ensures LiveValue(m, key, kind) == (ValueOf(restored, key, kind) + Requested(m.calls, key, kind)) % U64_MODULUS
  {
    LiveValueIsTotal(restored, m, key, kind);
    QuietApplied(m.calls, key, kind);
  }

  /** CONSERVATION. Over every interleaving, once no call is under way each field of each key is
      the restored value plus the sum of everything recorded for that key, modulo 2^64. */
  lemma ConcurrentConservation(codec: Codec, period: u64, s: State, steps: seq<Step>, key: Key, kind: Kind)
    requires Fresh(codec, period, s) && Quiet(Exec(codec, period, s, steps).mem.calls)
    ensures LiveValue(Exec(codec, period, s, steps).mem, key, kind)
         == (ValueOf(Restore(codec, s.disk.path, period), key, kind) + Recorded(steps, key, kind)) % U64_MODULUS
  {
    MemoryInvHolds(codec, period, s, steps);
    QuietValue(Restore(codec, s.disk.path, period), Exec(codec, period, s, steps).mem, key, kind);
    RequestedIsRecorded(codec, period, s, steps, key, kind);
  }

  // -------------------------------------------------------------------------
  // Crash-safe snapshots
  // -------------------------------------------------------------------------

  /** `v` is, modulo 2^64, a total that lies between `lo` and `hi`. */
  ghost predicate Between(lo: nat, hi: nat, v: u64) {
    exists t: nat :: lo <= t <= hi && v == t % U64_MODULUS
  }

  /** Every value in the snapshot lies between the live totals at the start and the end of its flush. */
  ghost predicate Accurate(restored: map<Key, Usage>, period: u64, f: Flush) {
    && f.snap.periodStart == period
    && forall k: Key, kind: Kind ::
         Between(LiveTotal(restored, f.began, k, kind), LiveTotal(restored, f.ended, k, kind),
                 ValueOf(f.snap.entries, k, kind))
  }

  /** Totals never decrease from `before` to `after`. */
  ghost predicate Grows(before: seq<Call>, after: seq<Call>) {
    forall k: Key, kind: Kind :: Applied(before, k, kind) <= Applied(after, k, kind)
  }

  /** While a flush loads: the values loaded so far are accurate, and the keys do not change. */
  ghost predicate LoadingInv(restored: map<Key, Usage>, m: Memory, began: seq<Call>, loaded: map<(Key, Kind), u64>) {
    && Grows(began, m.calls)
    && (forall k: Key, kind: Kind | (k, kind) in loaded ::
          Between(LiveTotal(restored, began, k, kind), LiveTotal(restored, m.calls, k, kind), loaded[(k, kind)]))
  }

  ghost predicate FlusherInv(restored: map<Key, Usage>, period: u64, s: State) {
    && (match s.flusher
        case Idle => true
        case Loading(began, loaded) => LoadingInv(restored, s.mem, began, loaded)
        case Writing(f) => Accurate(restored, period, f) && Grows(f.ended, s.mem.calls)
        case Renamed(f) => Accurate(restored, period, f) && Grows(f.ended, s.mem.calls))
    && (s.lastDone.Some? ==>
          Accurate(restored, period, s.lastDone.value) && Grows(s.lastDone.value.ended, s.mem.calls))
  }

  lemma AdvanceGrows(m: Memory, i: nat, insertable: bool)
    requires i < |m.calls|
    ensures Grows(m.calls, Advance(m, i, insertable).calls)
  {
    var calls := Advance(m, i, insertable).calls;
    assert calls == m.calls[i := calls[i]];
    forall k: Key, kind: Kind ensures Applied(m.calls, k, kind) <= Applied(calls, k, kind) {
      AppliedUpdate(m.calls, i, calls[i], k, kind);
    }
  }

  lemma DoGrows(codec: Codec, period: u64, s: State, step: Step)
    ensures Grows(s.mem.calls, Do(codec, period, s, step).mem.calls)
  {
    match step
    case Spawn(key, usage) =>
      forall k: Key, kind: Kind
        ensures Applied(s.mem.calls, k, kind) <= Applied(Do(codec, period, s, step).mem.calls, k, kind)
      {
        AppliedSpawn(s.mem.calls, Call(key, usage, Lookup, 0), k, kind);
      }
    case Run(i) =>
      if i < |s.mem.calls| {
        AdvanceGrows(s.mem, i, !s.flusher.Loading?);
      }
    case _ =>
  }

  lemma WidenBetween(lo: nat, hi: nat, hi': nat, v: u64)
    requires Between(lo, hi, v) && hi <= hi'
    ensures Between(lo, hi', v)
  {
    var t: nat :| lo <= t <= hi && v == t % U64_MODULUS;
    assert lo <= t <= hi' && v == t % U64_MODULUS;
  }

  /** Records that add up while a flush is loading leave what it has loaded accurate. */
  lemma LoadingWidens(restored: map<Key, Usage>, m: Memory, m': Memory, began: seq<Call>, loaded: map<(Key, Kind), u64>)
    requires LoadingInv(restored, m, began, loaded) && Grows(m.calls, m'.calls)
    ensures LoadingInv(restored, m', began, loaded)
  {
    forall k: Key, kind: Kind | (k, kind) in loaded
      ensures Between(LiveTotal(restored, began, k, kind), LiveTotal(restored, m'.calls, k, kind), loaded[(k, kind)])
    {
      WidenBetween(LiveTotal(restored, began, k, kind), LiveTotal(restored, m.calls, k, kind),
                   LiveTotal(restored, m'.calls, k, kind), loaded[(k, kind)]);
    }
  }

  lemma LoadStep(restored: map<Key, Usage>, m: Memory, began: seq<Call>, loaded: map<(Key, Kind), u64>, key: Key, kind: Kind)
    requires MemoryInv(restored, m) && LoadingInv(restored, m, began, loaded) && key in m.table
    ensures LoadingInv(restored, m, began, loaded[(key, kind) := LiveValue(m, key, kind)])
  {
    LiveValueIsTotal(restored, m, key, kind);
    assert Between(LiveTotal(restored, began, key, kind), LiveTotal(restored, m.calls, key, kind), LiveValue(m, key, kind));
  }

  lemma SerializeStep(restored: map<Key, Usage>, period: u64, m: Memory, began: seq<Call>, loaded: map<(Key, Kind), u64>)
    requires MemoryInv(restored, m) && LoadingInv(restored, m, began, loaded) && AllLoaded(m, loaded)
    ensures Accurate(restored, period, Flush(Snapshot(period, Entries(m, loaded)), began, m.calls))
  {
    var entries := Entries(m, loaded);
    forall k: Key, kind: Kind
      ensures Between(LiveTotal(restored, began, k, kind), LiveTotal(restored, m.calls, k, kind), ValueOf(entries, k, kind))
    {
      if k in m.table {
        assert (k, kind) in loaded;
        match kind case Prompt => case Completion => case Total =>
        assert ValueOf(entries, k, kind) == loaded[(k, kind)];
      } else {
        assert LiveTotal(restored, m.calls, k, kind) == 0;
        assert 0 <= 0 && ValueOf(entries, k, kind) == 0 % U64_MODULUS;
      }
    }
  }

  lemma FlusherStep(codec: Codec, restored: map<Key, Usage>, period: u64, s: State, step: Step)
    requires MemoryInv(restored, s.mem) && FlusherInv(restored, period, s)
    ensures FlusherInv(restored, period, Do(codec, period, s, step))
  {
    var s' := Do(codec, period, s, step);
    DoGrows(codec, period, s, step);
    if s.flusher.Loading? {
      var began, loaded := s.flusher.began, s.flusher.loaded;
      LoadingWidens(restored, s.mem, s'.mem, began, loaded);
      match step
      case LoadField(k, kind) =>
        if k in s.mem.table {
          LoadStep(restored, s.mem, began, loaded, k, kind);
        }
      case FlushSerialize =>
        if AllLoaded(s.mem, loaded) {
          SerializeStep(restored, period, s.mem, began, loaded);
        }
      case _ =>
    }
  }

  /** The snapshot file holds the flush that was renamed last, or what was there at the start. */
  ghost predicate DiskInv(codec: Codec, initial: Option<string>, s: State) {
    s.disk.path ==
      if s.flusher.Renamed? then Some(codec.encode(s.flusher.flush.snap))
      else if s.lastDone.Some? then Some(codec.encode(s.lastDone.value.snap))
      else initial
  }

  lemma DiskStep(codec: Codec, period: u64, initial: Option<string>, s: State, step: Step)
    requires DiskInv(codec, initial, s)
    ensures DiskInv(codec, initial, Do(codec, period, s, step))
  {
  }

  lemma {:induction false} FlushInvHolds(codec: Codec, period: u64, s: State, steps: seq<Step>)
    requires Fresh(codec, period, s)
    ensures FlusherInv(Restore(codec, s.disk.path, period), period, Exec(codec, period, s, steps))
    ensures DiskInv(codec, s.disk.path, Exec(codec, period, s, steps))
  {
    if steps != [] {
      var n := |steps| - 1;
      FlushInvHolds(codec, period, s, steps[..n]);
      MemoryInvHolds(codec, period, s, steps[..n]);
      var mid := Exec(codec, period, s, steps[..n]);
      FlusherStep(codec, Restore(codec, s.disk.path, period), period, mid, steps[n]);
      DiskStep(codec, period, s.disk.path, mid, steps[n]);
    }
  }

  /** The flush whose snapshot a crash now would leave on disk. */
  function Surviving(s: State): Option<Flush> {
    if s.flusher.Renamed? then Some(s.flusher.flush) else s.lastDone
  }

  /** CRASH SAFETY. Wherever a run stops, even in the middle of writing the temporary file, the next
      `new` finds either the snapshot of the last completed flush or that of the flush which has just
      been renamed; every field in it lies between the live totals at that flush's start and end. In
      any period but that of the ledger that wrote it, `new` starts empty. */
  lemma CrashSafe(codec: Codec, period: u64, s: State, steps: seq<Step>, nextPeriod: u64)
    requires RoundTrips(codec) && Fresh(codec, period, s)
    ensures var end := Exec(codec, period, s, steps);
            var found := Restore(codec, end.disk.path, nextPeriod);
            match Surviving(end)
            case None => found == Restore(codec, s.disk.path, nextPeriod)
            case Some(f) =>
              && found == (if nextPeriod == period then f.snap.entries else map[])
              && Accurate(Restore(codec, s.disk.path, period), period, f)
              && Grows(f.ended, end.mem.calls)
  {
    FlushInvHolds(codec, period, s, steps);
  }

  /** Without wrap-around the restored value itself lies between the two live values. */
  lemma RestoredInRange(restored: map<Key, Usage>, period: u64, f: Flush, key: Key, kind: Kind)
    requires Accurate(restored, period, f)
    requires LiveTotal(restored, f.ended, key, kind) < U64_MODULUS
    ensures LiveTotal(restored, f.began, key, kind) <= ValueOf(f.snap.entries, key, kind)
         <= LiveTotal(restored, f.ended, key, kind)
  {
    assert Between(LiveTotal(restored, f.began, key, kind), LiveTotal(restored, f.ended, key, kind),
                   ValueOf(f.snap.entries, key, kind));
  }

  // -------------------------------------------------------------------------
  // Accounting periods
  // -------------------------------------------------------------------------

  function PeriodLength(period: u64): u64 {
    if period < 1 then 1 else period
  }

  lemma FloorDivision(t: nat, secs: nat)
    requires secs >= 1
    ensures (t / secs) * secs <= t < (t / secs) * secs + secs
  {
  }

  /** `period_start_secs` when the clock shows `now`. */
  function PeriodStart(now: u64, period: u64): u64 {
    var secs := PeriodLength(period);
    FloorDivision(now, secs);
    (now / secs) * secs
  }

  lemma {:induction false} StepUp(q1: nat, q2: nat, secs: nat)
    requires q1 < q2
    ensures q1 * secs + secs <= q2 * secs
    decreases q2
  {
    assert q2 * secs == (q2 - 1) * secs + secs;
    if q1 < q2 - 1 {
      StepUp(q1, q2 - 1, secs);
    }
  }

  /** Two period starts are the same or at least a whole period apart. */
  lemma StartsApart(t1: u64, t2: u64, period: u64)
    ensures var p1, p2, secs := PeriodStart(t1, period), PeriodStart(t2, period), PeriodLength(period);
            p1 == p2 || p1 + secs <= p2 || p2 + secs <= p1
  {
    var secs := PeriodLength(period);
    var q1, q2 := t1 / secs, t2 / secs;
    if q1 < q2 {
      StepUp(q1, q2, secs);
    } else if q2 < q1 {
      StepUp(q2, q1, secs);
    }
  }

  lemma StartIsFloor(t: u64, period: u64)
    ensures PeriodStart(t, period) <= t < PeriodStart(t, period) + PeriodLength(period)
  {
    FloorDivision(t, PeriodLength(period));
  }

  /** Two instants are in the same period exactly when the later one comes before its end. */
  lemma SamePeriod(t1: u64, t2: u64, period: u64)
    requires t1 <= t2
    ensures PeriodStart(t1, period) == PeriodStart(t2, period)
       <==> t2 < PeriodStart(t1, period) + PeriodLength(period)
  {
    StartsApart(t1, t2, period);
    StartIsFloor(t1, period);
    StartIsFloor(t2, period);
  }

  /** A ledger built at `t1` that flushed and then crashed: a restart at `t2` finds the surviving
      snapshot exactly while the period in which it was *built* lasts, however late it flushed. */
  lemma RestartFinds(codec: Codec, t1: u64, t2: u64, length: u64, s: State, steps: seq<Step>)
    requires t1 <= t2 && RoundTrips(codec) && Fresh(codec, PeriodStart(t1, length), s)
    requires Surviving(Exec(codec, PeriodStart(t1, length), s, steps)).Some?
    ensures var end := Exec(codec, PeriodStart(t1, length), s, steps);
            Restore(codec, end.disk.path, PeriodStart(t2, length))
            == if t2 < PeriodStart(t1, length) + PeriodLength(length)
               then Surviving(end).value.snap.entries else map[]
  {
    SamePeriod(t1, t2, length);
    CrashSafe(codec, PeriodStart(t1, length), s, steps, PeriodStart(t2, length));
  }

  lemma ExecSnoc(codec: Codec, period: u64, s: State, steps: seq<Step>, step: Step)
    ensures Exec(codec, period, s, steps + [step]) == Do(codec, period, Exec(codec, period, s, steps), step)
  {
    assert (steps + [step])[..|steps|] == steps;
  }

  /** A ledger restored with one entry, about to be flushed. */
  function OneEntry(codec: Codec, period: u64, key: Key, u: Usage): State {
    State(Memory(map[key := 0], [Object(key, u)], []), Idle,
          Disk(Some(codec.encode(Snapshot(period, map[key := u]))), None), None)
  }

  function FieldsOf(key: Key, u: Usage): map<(Key, Kind), u64> {
    map[(key, Prompt) := u.prompt, (key, Completion) := u.completion, (key, Kind.Total) := u.total]
  }

  lemma LoadsFields(codec: Codec, period: u64, key: Key, u: Usage) returns (steps: seq<Step>)
    ensures Exec(codec, period, OneEntry(codec, period, key, u), steps)
         == OneEntry(codec, period, key, u).(flusher := Loading([], FieldsOf(key, u)))
  {
    var s := OneEntry(codec, period, key, u);
    var begun := [] + [FlushBegin];
    ExecSnoc(codec, period, s, [], FlushBegin);
    ExecSnoc(codec, period, s, begun, LoadField(key, Prompt));
    ExecSnoc(codec, period, s, begun + [LoadField(key, Prompt)], LoadField(key, Completion));
    steps := begun + [LoadField(key, Prompt)] + [LoadField(key, Completion)];
    ExecSnoc(codec, period, s, steps, LoadField(key, Kind.Total));
    steps := steps + [LoadField(key, Kind.Total)];
  }

  lemma LoadsEntry(codec: Codec, period: u64, key: Key, u: Usage) returns (steps: seq<Step>)
    ensures Exec(codec, period, OneEntry(codec, period, key, u), steps)
         == OneEntry(codec, period, key, u).(flusher := Writing(Flush(Snapshot(period, map[key := u]), [], [])))
  {
    var s := OneEntry(codec, period, key, u);
    steps := LoadsFields(codec, period, key, u);
    ExecSnoc(codec, period, s, steps, FlushSerialize);
    steps := steps + [FlushSerialize];
    EntriesOfFields(s.mem, key, u);
  }

  lemma EntriesOfFields(m: Memory, key: Key, u: Usage)
    requires m.table == map[key := 0]
    ensures AllLoaded(m, FieldsOf(key, u)) && Entries(m, FieldsOf(key, u)) == map[key := u]
  {
    forall k, kind | k in m.table ensures (k, kind) in FieldsOf(key, u) {
      match kind case Prompt => case Completion => case Total =>
    }
  }

  /** A flush that completes and is lost all the same: once the period in which the ledger was built
      is over, a restart finds nothing of a snapshot that is not empty. Nothing in a flush reads the
      clock, so this is so however late the flush came. */
  lemma SnapshotOutlived(codec: Codec, t1: u64, t2: u64, length: u64, key: Key, u: Usage)
    returns (s: State, steps: seq<Step>)
    requires RoundTrips(codec) && PeriodStart(t1, length) + PeriodLength(length) <= t2
    ensures Fresh(codec, PeriodStart(t1, length), s)
    ensures var end := Exec(codec, PeriodStart(t1, length), s, steps);
            && end.lastDone.Some? && end.lastDone.value.snap.entries == map[key := u]
            && Surviving(end) == end.lastDone
            && Restore(codec, end.disk.path, PeriodStart(t2, length)) == map[]
  {
    var period := PeriodStart(t1, length);
    s := OneEntry(codec, period, key, u);
    var before := LoadsEntry(codec, period, key, u);
    var text := codec.encode(Snapshot(period, map[key := u]));
    ExecSnoc(codec, period, s, before, WriteTmp(|text|));
    assert text[..|text|] == text;
    ExecSnoc(codec, period, s, before + [WriteTmp(|text|)], Rename);
    ExecSnoc(codec, period, s, before + [WriteTmp(|text|)] + [Rename], Return);
    steps := before + [WriteTmp(|text|)] + [Rename] + [Return];
    StartIsFloor(t1, length);
    RestartFinds(codec, t1, t2, length, s, steps);
  }

  // -------------------------------------------------------------------------
  // Restart in raw terms
  // -------------------------------------------------------------------------

  /** A period starts at the latest multiple of its length that the clock has reached; a period of zero
      seconds counts as one second. */
  lemma PeriodExactly(now: u64, period: u64) returns (periods: nat)
    ensures period >= 1 ==> PeriodStart(now, period) == periods * period <= now < periods * period + period
    ensures period == 0 ==> PeriodStart(now, period) == now
  {
    StartIsFloor(now, period);
    periods := now / PeriodLength(period);
  }

  /** What a start finds: the entries of a snapshot that can be read and is of this very period;
      nothing if there is no file, if it cannot be read, or if it is of another period. */
  lemma RestoreExactly(codec: Codec, path: Option<string>, period: u64)
    ensures path == None ==> Restore(codec, path, period) == map[]
    ensures path.Some? && codec.decode(path.value) == None ==> Restore(codec, path, period) == map[]
    ensures forall snap | path.Some? && codec.decode(path.value) == Some(snap) ::
              Restore(codec, path, period) == if snap.periodStart == period then snap.entries else map[]
  {
  }
}
