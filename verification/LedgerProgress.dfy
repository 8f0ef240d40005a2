/** The budget ledger gets somewhere (src/budget.rs): no `record` call is stuck for good, and every run
    can be completed. */
module LedgerProgress {
  import opened Prelude
  import opened LedgerMachine

  /** How many steps a call still has to make, at most. */
  function StepsLeft(pc: Pc): nat {
    match pc
    case Lookup => 5
    case Insert => 4
    case AddPrompt => 3
    case AddCompletion => 2
    case AddTotal => 1
    case Done => 0
  }

  /** Only call `i` has moved. */
  ghost predicate OnlyMoved(s: State, i: nat, s': State)
    requires i < |s.mem.calls|
  {
    && s'.flusher == s.flusher && s'.disk == s.disk && s'.lastDone == s.lastDone
    && |s'.mem.calls| == |s.mem.calls|
    && (forall j | 0 <= j < |s.mem.calls| && j != i :: s'.mem.calls[j] == s.mem.calls[j])
    && s'.mem.calls[i].key == s.mem.calls[i].key && s'.mem.calls[i].usage == s.mem.calls[i].usage
  }

  lemma OneRun(codec: Codec, period: u64, s: State, i: nat)
    requires i < |s.mem.calls| && !s.flusher.Loading?
    ensures var s' := Do(codec, period, s, Run(i));
            && OnlyMoved(s, i, s')
            && (s.mem.calls[i].pc == Done ==> s'.mem.calls[i].pc == Done)
            && (s.mem.calls[i].pc != Done ==> StepsLeft(s'.mem.calls[i].pc) < StepsLeft(s.mem.calls[i].pc))
  {
  }

  /** BLOCKED, exactly: a call that is not done makes no progress if and only if it waits for the write
      lock while a flush is loading. */
  lemma BlockedExactly(codec: Codec, period: u64, s: State, i: nat)
    requires i < |s.mem.calls| && s.mem.calls[i].pc != Done
    ensures Do(codec, period, s, Run(i)) == s <==> s.mem.calls[i].pc == Insert && s.flusher.Loading?
  {
    var s' := Do(codec, period, s, Run(i));
    if !(s.mem.calls[i].pc == Insert && s.flusher.Loading?) {
      assert s'.mem.calls[i].pc != s.mem.calls[i].pc;
    }
  }

  lemma {:induction false} ExecConcat(codec: Codec, period: u64, s: State, a: seq<Step>, b: seq<Step>)
    ensures Exec(codec, period, s, a + b) == Exec(codec, period, Exec(codec, period, s, a), b)
  {
    if b == [] {
      assert a + b == a;
    } else {
      var n := |b| - 1;
      ExecConcat(codec, period, s, a, b[..n]);
      assert (a + b)[..|a + b| - 1] == a + b[..n];
    }
  }

  lemma MovedAgain(s: State, i: nat, s1: State, s2: State)
    requires i < |s.mem.calls| && OnlyMoved(s, i, s1) && OnlyMoved(s1, i, s2)
    ensures OnlyMoved(s, i, s2)
  {
  }

  lemma {:induction false} Runs(codec: Codec, period: u64, s: State, i: nat, n: nat)
    requires i < |s.mem.calls| && !s.flusher.Loading? && n <= 5
    ensures var s' := Exec(codec, period, s, Repeat(Step.Run(i), n));
            OnlyMoved(s, i, s') && StepsLeft(s'.mem.calls[i].pc) <= 5 - n
  {
    if n > 0 {
      var before := Repeat(Step.Run(i), n - 1);
      var s1 := Exec(codec, period, s, before);
      Runs(codec, period, s, i, n - 1);
      OneRun(codec, period, s1, i);
      MovedAgain(s, i, s1, Do(codec, period, s1, Step.Run(i)));
      ExecSnoc(codec, period, s, before, Step.Run(i));
    }
  }

  /** A RECORD COMPLETES. From any state in which no flush is loading, five steps of a call finish it,
      whatever it has done so far, and leave every other call where it was. */
  lemma RecordCompletes(codec: Codec, period: u64, s: State, i: nat)
    requires i < |s.mem.calls| && !s.flusher.Loading?
    ensures var s' := Exec(codec, period, s, [Step.Run(i), Step.Run(i), Step.Run(i), Step.Run(i), Step.Run(i)]);
            OnlyMoved(s, i, s') && s'.mem.calls[i].pc == Done
  {
    Runs(codec, period, s, i, 5);
    RepeatFive(Step.Run(i));
  }

  lemma RepeatFive<T>(x: T)
    ensures Repeat(x, 5) == [x, x, x, x, x]
  {
    assert Repeat(x, 1) == [x] && Repeat(x, 2) == [x, x] && Repeat(x, 3) == [x, x, x] && Repeat(x, 4) == [x, x, x, x];
  }

  predicate SpawnsNothing(steps: seq<Step>) {
    forall step | step in steps :: !step.Spawn?
  }

  // -------------------------------------------------------------------------
  // A flush can always finish loading
  // -------------------------------------------------------------------------

  ghost predicate HasLoaded(s: State, keys: set<Key>, s': State)
    requires s.flusher.Loading?
  {
    && s'.mem == s.mem && s'.disk == s.disk && s'.lastDone == s.lastDone
    && s'.flusher.Loading? && s'.flusher.began == s.flusher.began
    && forall k, kind | k in keys :: (k, kind) in s'.flusher.loaded
  }

  function LoadSteps(key: Key): seq<Step> {
    [LoadField(key, Prompt), LoadField(key, Completion), LoadField(key, Kind.Total)]
  }

  lemma ThreeSteps(codec: Codec, period: u64, s: State, a: Step, b: Step, c: Step)
    ensures Exec(codec, period, s, [a, b, c]) == Do(codec, period, Do(codec, period, Do(codec, period, s, a), b), c)
  {
    ExecSnoc(codec, period, s, [], a);
    ExecSnoc(codec, period, s, [a], b);
    ExecSnoc(codec, period, s, [a, b], c);
    assert [] + [a] == [a] && [a] + [b] == [a, b] && [a, b] + [c] == [a, b, c];
  }

  lemma LoadsKey(codec: Codec, period: u64, s: State, keys: set<Key>, s1: State, key: Key)
    requires s.flusher.Loading? && HasLoaded(s, keys, s1)
    requires key in s.mem.table && s.mem.table[key] < |s.mem.heap|
    ensures HasLoaded(s, keys + {key}, Exec(codec, period, s1, LoadSteps(key)))
  {
    ThreeSteps(codec, period, s1, LoadField(key, Prompt), LoadField(key, Completion), LoadField(key, Kind.Total));
    var s2 := Exec(codec, period, s1, LoadSteps(key));
    forall k, kind | k in keys + {key} ensures (k, kind) in s2.flusher.loaded {
      match kind case Prompt => case Completion => case Total =>
    }
  }

  lemma {:induction false} LoadsKeys(codec: Codec, period: u64, s: State, keys: set<Key>) returns (steps: seq<Step>)
    requires s.flusher.Loading? && Linked(s.mem) && keys <= s.mem.table.Keys
    ensures SpawnsNothing(steps) && HasLoaded(s, keys, Exec(codec, period, s, steps))
    decreases keys
  {
    if keys == {} {
      steps := [];
    } else {
      var key :| key in keys;
      var before := LoadsKeys(codec, period, s, keys - {key});
      var load := LoadSteps(key);
      LoadsKey(codec, period, s, keys - {key}, Exec(codec, period, s, before), key);
      ExecConcat(codec, period, s, before, load);
      assert keys - {key} + {key} == keys;
      steps := before + load;
    }
  }

  /** A LOADING FLUSH CAN GO ON to writing, from any state, with no call moved. */
  lemma FlushCanWrite(codec: Codec, period: u64, s: State) returns (steps: seq<Step>)
    requires s.flusher.Loading? && Linked(s.mem)
    ensures SpawnsNothing(steps)
    ensures var s' := Exec(codec, period, s, steps);
            s'.flusher.Writing? && s'.mem == s.mem && s'.disk == s.disk && s'.lastDone == s.lastDone
  {
    var load := LoadsKeys(codec, period, s, s.mem.table.Keys);
    ExecSnoc(codec, period, s, load, FlushSerialize);
    steps := load + [FlushSerialize];
  }

  // -------------------------------------------------------------------------
  // Every run can be completed
  // -------------------------------------------------------------------------

  lemma {:induction false} FinishCalls(codec: Codec, period: u64, s: State, n: nat) returns (steps: seq<Step>)
    requires !s.flusher.Loading? && n <= |s.mem.calls|
    ensures SpawnsNothing(steps)
    ensures var s' := Exec(codec, period, s, steps);
            && s'.flusher == s.flusher && |s'.mem.calls| == |s.mem.calls|
            && forall j | 0 <= j < n :: s'.mem.calls[j].pc == Done
  {
    if n == 0 {
      steps := [];
    } else {
      var before := FinishCalls(codec, period, s, n - 1);
      var i := n - 1;
      var five := [Step.Run(i), Step.Run(i), Step.Run(i), Step.Run(i), Step.Run(i)];
      RecordCompletes(codec, period, Exec(codec, period, s, before), i);
      ExecConcat(codec, period, s, before, five);
      steps := before + five;
    }
  }

  lemma {:induction false} NothingRecorded(a: seq<Step>, b: seq<Step>, key: Key, kind: Kind)
    requires SpawnsNothing(b)
    ensures Recorded(a + b, key, kind) == Recorded(a, key, kind)
  {
    if b == [] {
      assert a + b == a;
    } else {
      var n := |b| - 1;
      NothingRecorded(a, b[..n], key, kind);
      assert (a + b)[..|a + b| - 1] == a + b[..n];
      assert b[n] in b;
    }
  }

  /** EVERY RUN CAN BE COMPLETED. However the calls and the flush of a run stand, some further steps
      without a new call finish all its calls. */
  lemma RunCompletes(codec: Codec, period: u64, s: State, steps: seq<Step>) returns (more: seq<Step>)
    requires Fresh(codec, period, s)
    ensures SpawnsNothing(more) && Quiet(Exec(codec, period, s, steps + more).mem.calls)
  {
    var end := Exec(codec, period, s, steps);
    MemoryInvHolds(codec, period, s, steps);
    var unblock := [];
    if end.flusher.Loading? {
      unblock := FlushCanWrite(codec, period, end);
    }
    var ready := Exec(codec, period, end, unblock);
    var finish := FinishCalls(codec, period, ready, |ready.mem.calls|);
    ExecConcat(codec, period, end, unblock, finish);
    more := unblock + finish;
    ExecConcat(codec, period, s, steps, more);
  }

  /** What the `record` calls of a run add up to, field by field. */
  datatype Sums = Sums(prompt: nat, completion: nat, total: nat)

  function SumsOf(steps: seq<Step>, key: Key): Sums {
    if steps == [] then Sums(0, 0, 0)
    else
      var before, last := SumsOf(steps[..|steps| - 1], key), steps[|steps| - 1];
      if last.Spawn? && last.key == key then
        Sums(before.prompt + last.usage.prompt, before.completion + last.usage.completion, before.total + last.usage.total)
      else before
  }

  lemma {:induction false} SumsAreRecorded(steps: seq<Step>, key: Key)
    ensures var sums := SumsOf(steps, key);
            && Recorded(steps, key, Prompt) == sums.prompt && Recorded(steps, key, Completion) == sums.completion
            && Recorded(steps, key, Kind.Total) == sums.total
  {
    if steps != [] {
      SumsAreRecorded(steps[..|steps| - 1], key);
    }
  }

  /** The stored value of a key, zero before its first use. */
  function ValueIn(m: Memory, key: Key): Usage {
    if key in m.table && m.table[key] < |m.heap| then m.heap[m.table[key]].value else Usage(0, 0, 0)
  }

  /** Three numbers and what is added to them, modulo 2^64. */
  function Arrived(was: Usage, sums: Sums): Usage {
    Usage((was.prompt + sums.prompt) % U64_MODULUS, (was.completion + sums.completion) % U64_MODULUS,
          (was.total + sums.total) % U64_MODULUS)
  }

  function InitialValue(restored: map<Key, Usage>, key: Key): Usage {
    if key in restored then restored[key] else Usage(0, 0, 0)
  }

  /** NOTHING RECORDED IS LOST, and no run gets stuck: every run, at any point, can be completed, and
      then each of a key's three numbers is what was restored plus what was recorded, modulo 2^64. */
  lemma EveryRecordArrives(codec: Codec, period: u64, s: State, steps: seq<Step>) returns (more: seq<Step>)
    requires Fresh(codec, period, s)
    ensures SpawnsNothing(more) && Quiet(Exec(codec, period, s, steps + more).mem.calls)
    ensures forall key :: ValueIn(Exec(codec, period, s, steps + more).mem, key)
                       == Arrived(InitialValue(Restore(codec, s.disk.path, period), key), SumsOf(steps, key))
  {
    more := RunCompletes(codec, period, s, steps);
    forall key
      ensures ValueIn(Exec(codec, period, s, steps + more).mem, key)
           == Arrived(InitialValue(Restore(codec, s.disk.path, period), key), SumsOf(steps, key))
    {
      ArrivedFields(codec, period, s, steps, more, key);
    }
  }

  predicate FieldArrived(value: Usage, was: Usage, steps: seq<Step>, key: Key, kind: Kind) {
    Amount(value, kind) == (Amount(was, kind) + Recorded(steps, key, kind)) % U64_MODULUS
  }

  lemma ArrivedFields(codec: Codec, period: u64, s: State, steps: seq<Step>, more: seq<Step>, key: Key)
    requires Fresh(codec, period, s) && SpawnsNothing(more) && Quiet(Exec(codec, period, s, steps + more).mem.calls)
    ensures ValueIn(Exec(codec, period, s, steps + more).mem, key)
         == Arrived(InitialValue(Restore(codec, s.disk.path, period), key), SumsOf(steps, key))
  {
    var value := ValueIn(Exec(codec, period, s, steps + more).mem, key);
    var was := InitialValue(Restore(codec, s.disk.path, period), key);
    ArrivedField(codec, period, s, steps, more, key, Prompt);
    ArrivedField(codec, period, s, steps, more, key, Completion);
    ArrivedField(codec, period, s, steps, more, key, Kind.Total);
    FromFields(value, was, steps, key);
  }

  lemma FromFields(value: Usage, was: Usage, steps: seq<Step>, key: Key)
    requires FieldArrived(value, was, steps, key, Prompt) && FieldArrived(value, was, steps, key, Completion)
    requires FieldArrived(value, was, steps, key, Kind.Total)
    ensures value == Arrived(was, SumsOf(steps, key))
  {
    SumsAreRecorded(steps, key);
  }

  lemma ArrivedField(codec: Codec, period: u64, s: State, steps: seq<Step>, more: seq<Step>, key: Key, kind: Kind)
    requires Fresh(codec, period, s) && SpawnsNothing(more) && Quiet(Exec(codec, period, s, steps + more).mem.calls)
    ensures FieldArrived(ValueIn(Exec(codec, period, s, steps + more).mem, key),
                         InitialValue(Restore(codec, s.disk.path, period), key), steps, key, kind)
  {
    var m, restored := Exec(codec, period, s, steps + more).mem, Restore(codec, s.disk.path, period);
    assert LiveValue(m, key, kind) == (ValueOf(restored, key, kind) + Recorded(steps + more, key, kind)) % U64_MODULUS by {
      ConcurrentConservation(codec, period, s, steps + more, key, kind);
    }
    assert Recorded(steps + more, key, kind) == Recorded(steps, key, kind) by {
      NothingRecorded(steps, more, key, kind);
    }
    SameReading(m, restored, steps, key, kind);
  }

  lemma SameReading(m: Memory, restored: map<Key, Usage>, steps: seq<Step>, key: Key, kind: Kind)
    requires LiveValue(m, key, kind) == (ValueOf(restored, key, kind) + Recorded(steps, key, kind)) % U64_MODULUS
    ensures FieldArrived(ValueIn(m, key), InitialValue(restored, key), steps, key, kind)
  {
  }
}
